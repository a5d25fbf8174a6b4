/** A room with its list of users, and what each message to it does: the new room and the
    packets sent, in order. The request pipeline serialises the messages, so a run is a list of
    events. */
module Lobby {
  import opened Bytes
  import opened Codec
  import opened Messages
  import opened Chess
  import opened Tables
  import opened UserInfos
  import Framing

  const MAX_USERS := 200
  const ROLE_PLAYER: byte := 0x50
  const ROLE_ONLOOKER: byte := 0x4F

  const C_YOU_JOIN_ROOM := 2
  const C_USER_INFO := 3
  const C_OTHER_JOIN_ROOM := 4
  const C_USER_LEAVE_ROOM := 5
  const C_PLAYER_READY := 6
  const C_GAME_START := 7
  const C_STONE := 8
  const C_GAME_OVER := 13
  const C_MESSAGE := 14

  datatype Lobby = Lobby(table: Table, name: seq<byte>, maxUsers: int, users: seq<User>)

  function ClampMaxUsers(n: int): (m: int)
    ensures 2 <= m <= MAX_USERS
    ensures 2 <= n <= MAX_USERS ==> m == n
  {
    if n > MAX_USERS then MAX_USERS else if n < 2 then 2 else n
  }

  function NewLobby(name: seq<byte>, maxUsers: int): (l: Lobby)
    ensures Sound(l.table)
  {
    Lobby(NewTable(), name, ClampMaxUsers(maxUsers), [])
  }

  // ---------- packets ----------

  datatype Packet = Packet(instruction: nat, data: seq<byte>)

  datatype Send = Send(to: User, packet: Packet)

  /** The same packets to every user, user by user. */
  function ToAll(users: seq<User>, packets: seq<Packet>): seq<Send> {
    if users == [] then []
    else seq(|packets|, i requires 0 <= i < |packets| => Send(users[0], packets[i])) + ToAll(users[1..], packets)
  }

  lemma {:induction false} OnlyOne(u: User, packets: seq<Packet>)
    ensures ToAll([u], packets) == seq(|packets|, i requires 0 <= i < |packets| => Send(u, packets[i]))
  {
    assert [u][1..] == [] && ToAll([], packets) == [];
  }

  lemma {:induction false} OneMoreSent(before: seq<Send>, u: User, rest: seq<User>, packets: seq<Packet>)
    ensures before + ToAll([u], packets) + ToAll(rest, packets) == before + ToAll([u] + rest, packets)
  {
    OnlyOne(u, packets);
    assert ([u] + rest)[1..] == rest;
  }

  lemma {:induction false} NothingToNobody(users: seq<User>)
    ensures ToAll(users, []) == []
  {
    if users != [] {
      NothingToNobody(users[1..]);
    }
  }

  function NameBytes(name: Name): seq<byte> {
    [|name|] + name
  }

  /** Every other user is told of a join, but under its own name. */
  function TellOthers(users: seq<User>, joiner: User, role: byte): seq<Send> {
    if users == [] then []
    else
      var rest := TellOthers(users[1..], joiner, role);
      if users[0] == joiner then rest
      else [Send(users[0], Packet(C_OTHER_JOIN_ROOM, NameBytes(users[0].name) + [role]))] + rest
  }

  /** The leaver itself is sent the name of everyone listed. */
  function TellLeaver(users: seq<User>, leaver: User): seq<Send> {
    seq(|users|, i requires 0 <= i < |users| =>
      Send(leaver, Packet(C_USER_LEAVE_ROOM, NameBytes(users[i].name))))
  }

  lemma {:induction false} NameEncodes(name: Name, role: byte)
    ensures Encode(USERNAME, [Blob(name)]) == Some(NameBytes(name))
    ensures InhabitAll([Blob(name), Num(role)], USERNAME_AND_ROLE)
    ensures Encode(USERNAME_AND_ROLE, [Blob(name), Num(role)]) == Some(NameBytes(name) + [role])
  {
    CapacityOfWords();
    assert LittleEndian(role, 1) == [role];
    var vs, ws := [Blob(name)], [Blob(name), Num(role)];
    EncodeFrom(USERNAME, vs, 0);
    EncodeFrom(USERNAME_AND_ROLE, ws, 1);
    EncodeFrom(USERNAME_AND_ROLE, ws, 0);
    assert USERNAME[0..] == USERNAME && USERNAME_AND_ROLE[0..] == USERNAME_AND_ROLE && vs[0..] == vs && ws[0..] == ws;
    assert NameBytes(name) + [] == NameBytes(name) && [role] + [] == [role];
  }

  // ---------- the join snapshot ----------

  function OnlookerNames(t: Table, users: seq<User>): seq<seq<byte>> {
    if users == [] then []
    else (if IsPlayer(t, users[0]) then [] else [users[0].name]) + OnlookerNames(t, users[1..])
  }

  function SeatName(seat: Option<User>): Name {
    if seat.Some? then seat.value.name else []
  }

  function SnapshotOf(l: Lobby): Snapshot
    requires Sound(l.table) && 2 <= l.maxUsers <= MAX_USERS
  {
    var t := l.table;
    Snapshot(l.name, l.maxUsers, SeatName(t.black), SeatName(t.white), OnlookerNames(t, l.users),
             t.readyColor, t.isPlaying, t.regretColor, t.tieColor, Log(t.chess))
  }

  function SnapshotBytes(l: Lobby): Option<seq<byte>>
    requires Sound(l.table) && 2 <= l.maxUsers <= MAX_USERS
  {
    Encode(SNAPSHOT, SnapshotValues(SnapshotOf(l)))
  }

  lemma {:induction false} OnlookerNamesAreShort(t: Table, users: seq<User>)
    ensures forall i :: 0 <= i < |OnlookerNames(t, users)| ==> |OnlookerNames(t, users)[i]| <= 255
  {
    if users != [] {
      OnlookerNamesAreShort(t, users[1..]);
    }
  }

  lemma {:induction false} OneMoreName(front: seq<seq<byte>>, name: seq<byte>, rest: seq<seq<byte>>)
    ensures front + ([name] + rest) == front + [name] + rest
  {
  }

  /** The snapshot's bytes, when it can be marshalled and `conn.Write` takes it for one frame. */
  function SendableSnapshot(l: Lobby): Option<seq<byte>>
    requires Sound(l.table) && 2 <= l.maxUsers <= MAX_USERS
  {
    var bs :- SnapshotBytes(l);
    if |bs| <= Framing.MAX_PAYLOAD then Some(bs) else None
  }

  /** Eleven fields with one fixed byte each, and the texts. */
  function SnapshotSize(l: Lobby): nat
    requires Sound(l.table)
  {
    11 + |l.name| + |SeatName(l.table.black)| + |SeatName(l.table.white)| + |Log(l.table.chess)|
    + TotalSize(OnlookerNames(l.table, l.users))
  }

  /** A snapshot can be sent exactly when the room's name and the count of listed non-players
      fit in a byte each and all of it fits in a frame: the record always fits, by pigeonhole,
      and the capacity is not truncated. */
  lemma {:induction false} SnapshotFitsIff(l: Lobby)
    requires Sound(l.table) && 2 <= l.maxUsers <= MAX_USERS
    ensures SnapshotBytes(l).Some? <==> |l.name| <= 255 && |OnlookerNames(l.table, l.users)| <= 255
    ensures SnapshotBytes(l).Some? ==> |SnapshotBytes(l).value| == SnapshotSize(l)
    ensures SendableSnapshot(l).Some? <==>
      |l.name| <= 255 && |OnlookerNames(l.table, l.users)| <= 255 && SnapshotSize(l) <= Framing.MAX_PAYLOAD
  {
    SnapshotEncodesIff(SnapshotOf(l));
    LogFits(Log(l.table.chess));
    OnlookerNamesAreShort(l.table, l.users);
  }

  // ---------- steps ----------

  datatype Event =
    | JoinRoom(user: User, role: byte)
    | PlayerReady(user: User)
    | PlayerStone(user: User, data: seq<byte>)
    | PlayerRegret(user: User)
    | LeaveRoom(user: User)
    | Say(user: User, data: seq<byte>, now: LongWord)
    | AskInfo(user: User, data: seq<byte>)

  predicate Admissible(l: Lobby) {
    Sound(l.table) && 2 <= l.maxUsers <= MAX_USERS
  }

  /** Room for one more non-player. */
  predicate HasPlace(l: Lobby) {
    |l.users| - |Seated(l.table)| < l.maxUsers - 2
  }

  /** Taking a seat or a place. */
  function Admit(l: Lobby, u: User, role: byte): (r: Option<Lobby>)
    requires Admissible(l) && !IsPlayer(l.table, u)
    ensures r.Some? ==> Admissible(r.value)
  {
    if role == ROLE_PLAYER then
      var t :- Tables.Join(l.table, u);
      Some(l.(table := t, users := l.users + [u]))
    else if role == ROLE_ONLOOKER && HasPlace(l) then Some(l.(users := l.users + [u]))
    else None
  }

  function AfterReady(t: Table, u: User): (r: Table)
    requires Sound(t)
    ensures Sound(r)
  {
    if Completes(t, u) then Tables.Start(Tables.Ready(t, u)) else Tables.Ready(t, u)
  }

  /** The guard refuses black on black's turn and white on white's. */
  predicate MayPlay(t: Table, u: User) {
    && t.isPlaying && IsPlayer(t, u)
    && !(t.black == Some(u) && Turn(t.chess) == BLACK)
    && !(t.white == Some(u) && Turn(t.chess) == WHITE)
  }

  /** The message names the next move number and an empty cell. */
  predicate Plays(t: Table, u: User, data: seq<byte>)
    requires Sound(t)
  {
    |data| >= 2 && MayPlay(t, u) && Accepts(t.chess, data[0], data[1])
  }

  function AfterStone(t: Table, u: User, data: seq<byte>): (r: Table)
    requires Sound(t)
    ensures Sound(r)
  {
    if Plays(t, u, data) then PlayStone(t, data[0], data[1]) else t
  }

  function Without(users: seq<User>, u: User): seq<User> {
    if users == [] then []
    else if users[0] == u then users[1..]
    else [users[0]] + Without(users[1..], u)
  }

  predicate Possible(l: Lobby, e: Event) {
    Admissible(l) && (e.JoinRoom? ==> !IsPlayer(l.table, e.user))
  }

  /** The room after an event. A user once admitted stays, even when the snapshot cannot be
      sent; a player's leave frees the seat but keeps the player listed. */
  function After(l: Lobby, e: Event): (l': Lobby)
    requires Possible(l, e)
    ensures Admissible(l')
  {
    match e
    case JoinRoom(u, role) => (
      match Admit(l, u, role)
      case None => l
      case Some(l') => l')
    case PlayerReady(u) => l.(table := AfterReady(l.table, u))
    case PlayerStone(u, data) => l.(table := AfterStone(l.table, u, data))
    case PlayerRegret(u) => l.(table := AskRegret(l.table, u))
    case LeaveRoom(u) =>
      if IsPlayer(l.table, u) then l.(table := Tables.Leave(l.table, u))
      else l.(users := Without(l.users, u))
    case Say(_, _, _) => l
    case AskInfo(_, _) => l
  }

  // ---------- what is sent ----------

  function SnapshotSends(l: Lobby, u: User): seq<Send>
    requires Admissible(l)
  {
    match SendableSnapshot(l)
    case None => []
    case Some(bs) => [Send(u, Packet(C_YOU_JOIN_ROOM, bs))]
  }

  function ReadyPackets(t: Table, u: User): seq<Packet>
    requires Sound(t)
  {
    if !IsPlayer(t, u) then []
    else if Completes(t, u) then [Packet(C_GAME_START, NameBytes(Tables.Ready(t, u).black.value.name))]
    else [Packet(C_PLAYER_READY, [ColorOf(t, u)])]
  }

  /** The stone, and after it the winner's colour if it won. */
  ghost function StonePackets(t: Table, u: User, data: seq<byte>): seq<Packet>
    requires Sound(t)
  {
    if !Plays(t, u, data) then []
    else
      [Packet(C_STONE, [data[1]])]
      + if Wins(AfterStone(t, u, data).chess) then [Packet(C_GAME_OVER, [Turn(t.chess)])] else []
  }

  function LineOf(data: seq<byte>): Option<seq<byte>> {
    var line :- Decode(CHAT_REQUEST, data);
    if |line.part| == 1 && line.part[0].Blob? then Some(line.part[0].bytes) else None
  }

  /** Every request that decodes has its line. */
  lemma {:induction false} LineIsDecoded(data: seq<byte>)
    ensures match Decode(CHAT_REQUEST, data)
      case None => LineOf(data).None?
      case Some(p) => LineOf(data).Some? && p.part == [Blob(LineOf(data).value)]
  {
    var first := DecodeField(TEXT16, data);
    assert CHAT_REQUEST[0] == TEXT16 && CHAT_REQUEST[1..] == [];
    if first.Some? {
      assert Decode([], first.value.rest) == Some(Parsed([], first.value.rest));
      assert Decode(CHAT_REQUEST, data) == Some(Parsed([first.value.part] + [], first.value.rest));
    }
  }

  /** A chat message, unless it cannot be marshalled or does not fit in a frame. */
  function MessagePackets(username: Name, text: seq<byte>, now: LongWord): seq<Packet> {
    CapacityOfWords();
    var bytes := Encode(CHAT, ChatValues(Chat(now, username, text)));
    if bytes.None? || |bytes.value| > Framing.MAX_PAYLOAD then [] else [Packet(C_MESSAGE, bytes.value)]
  }

  /** A chat line goes out under its sender's name. */
  function ChatPackets(u: User, data: seq<byte>, now: LongWord): seq<Packet> {
    match LineOf(data)
    case None => []
    case Some(line) => MessagePackets(u.name, line, now)
  }

  /** An empty request asks for the empty name; nothing where fewer bytes follow than it says. */
  function NameAskedFor(data: seq<byte>): Option<seq<byte>> {
    if data == [] then Some([])
    else
      var name :- DecodeBlob("1", data);
      Some(name.part)
  }

  lemma {:induction false} NameIsRead(data: seq<byte>)
    ensures NameAskedFor(data) ==
      if data == [] then Some([]) else if 1 + data[0] <= |data| then Some(data[1..1 + data[0]]) else None
  {
    ByteField(data);
    if data != [] && 1 + data[0] <= |data| {
      assert data[1..][..data[0]] == data[1..1 + data[0]];
    }
  }

  /** The first listed user of that name. */
  function FirstNamed(users: seq<User>, name: seq<byte>): Option<User> {
    if users == [] then None else if users[0].name == name then Some(users[0]) else FirstNamed(users[1..], name)
  }

  function InfoOf(u: User): UserInfo {
    UserInfo(u.name, u.stats.wins, u.stats.ties, u.stats.losses, u.stats.matches, u.stats.duration)
  }

  /** The answer to a question about a user, if one of that name is listed. */
  function InfoSends(l: Lobby, u: User, data: seq<byte>): seq<Send> {
    match NameAskedFor(data)
    case None => []
    case Some(name) =>
      match FirstNamed(l.users, name)
      case None => []
      case Some(other) => [Send(u, Packet(C_USER_INFO, PutUserInfo(InfoOf(other))))]
  }

  ghost function Sends(l: Lobby, e: Event): seq<Send>
    requires Possible(l, e)
  {
    match e
    case JoinRoom(u, role) =>
      if Admit(l, u, role).None? then []
      else TellOthers(After(l, e).users, u, role) + SnapshotSends(After(l, e), u)
    case PlayerReady(u) => ToAll(l.users, ReadyPackets(l.table, u))
    case PlayerStone(u, data) => ToAll(l.users, StonePackets(l.table, u, data))
    case PlayerRegret(u) => []
    case LeaveRoom(u) => TellLeaver(l.users, u)
    case Say(u, data, now) => ToAll(l.users, ChatPackets(u, data, now))
    case AskInfo(u, data) => InfoSends(l, u, data)
  }

  /** Whether the handler reports success. */
  predicate Succeeds(l: Lobby, e: Event)
    requires Possible(l, e)
  {
    match e
    case JoinRoom(u, role) => Admit(l, u, role).Some? && SendableSnapshot(After(l, e)).Some?
    case PlayerReady(u) => IsPlayer(l.table, u)
    case PlayerStone(u, data) => |data| >= 2 && MayPlay(l.table, u)
    case PlayerRegret(u) => false
    case LeaveRoom(u) => true
    case Say(u, data, now) => LineOf(data).Some?
    case AskInfo(u, data) => NameAskedFor(data).Some?
  }

  // ---------- what is sent fits in frames ----------

  predicate AllFit(sends: seq<Send>) {
    forall i :: 0 <= i < |sends| ==> |sends[i].packet.data| <= Framing.MAX_PAYLOAD
  }

  lemma {:induction false} BroadcastFits(users: seq<User>, packets: seq<Packet>)
    requires forall i :: 0 <= i < |packets| ==> |packets[i].data| <= Framing.MAX_PAYLOAD
    ensures AllFit(ToAll(users, packets))
    decreases |users|
  {
    if users != [] {
      BroadcastFits(users[1..], packets);
    }
  }

  lemma {:induction false} TellOthersFits(users: seq<User>, joiner: User, role: byte)
    ensures AllFit(TellOthers(users, joiner, role))
    decreases |users|
  {
    if users != [] {
      TellOthersFits(users[1..], joiner, role);
    }
  }

  lemma {:induction false} BothFit(a: seq<Send>, b: seq<Send>)
    requires AllFit(a) && AllFit(b)
    ensures AllFit(a + b)
  {
  }

  lemma {:induction false} BroadcastsAreSmall(t: Table, u: User, data: seq<byte>)
    requires Sound(t)
    ensures forall i :: 0 <= i < |ReadyPackets(t, u)| ==> |ReadyPackets(t, u)[i].data| <= Framing.MAX_PAYLOAD
    ensures forall i :: 0 <= i < |StonePackets(t, u, data)| ==>
      |StonePackets(t, u, data)[i].data| <= Framing.MAX_PAYLOAD
  {
  }

  /** Everything an event sends fits in a frame, so `conn.Write` can refuse only a snapshot. */
  lemma {:induction false} EverySendFits(l: Lobby, e: Event)
    requires Possible(l, e)
    ensures AllFit(Sends(l, e))
  {
    match e
    case JoinRoom(u, role) =>
      if Admit(l, u, role).Some? {
        TellOthersFits(After(l, e).users, u, role);
        BothFit(TellOthers(After(l, e).users, u, role), SnapshotSends(After(l, e), u));
      }
    case PlayerReady(u) =>
      BroadcastsAreSmall(l.table, u, []);
      BroadcastFits(l.users, ReadyPackets(l.table, u));
    case PlayerStone(u, data) =>
      BroadcastsAreSmall(l.table, u, data);
      BroadcastFits(l.users, StonePackets(l.table, u, data));
    case PlayerRegret(_) =>
    case LeaveRoom(_) =>
    case Say(u, data, now) => BroadcastFits(l.users, ChatPackets(u, data, now));
    case AskInfo(u, data) => InfoFits(l, u, data);
  }

  lemma {:induction false} InfoFits(l: Lobby, u: User, data: seq<byte>)
    ensures AllFit(InfoSends(l, u, data))
  {
  }

  /** A player's join to a room whose seats are empty succeeds exactly when the room's name and
      the count of users still listed fit in a byte each and the snapshot fits in a frame. */
  lemma {:induction false} JoinBesideGhostsSucceedsIff(l: Lobby, u: User)
    requires Admissible(l) && l.table.black.None? && l.table.white.None? && u !in l.users
    ensures Possible(l, JoinRoom(u, ROLE_PLAYER)) && Admit(l, u, ROLE_PLAYER).Some?
    ensures Succeeds(l, JoinRoom(u, ROLE_PLAYER)) <==>
      && |l.name| <= 255 && |l.users| <= 255
      && 11 + |l.name| + |u.name| + |Log(l.table.chess)| + TotalSize(NamesOf(l.users)) <= Framing.MAX_PAYLOAD
  {
    var l' := After(l, JoinRoom(u, ROLE_PLAYER));
    SolePlayerNames(l'.table, l.users, u);
    SnapshotFitsIff(l');
  }

  function NamesOf(users: seq<User>): (names: seq<seq<byte>>)
    ensures |names| == |users|
  {
    if users == [] then [] else [users[0].name] + NamesOf(users[1..])
  }

  lemma {:induction false} SolePlayerNames(t: Table, others: seq<User>, u: User)
    requires t.black == Some(u) && t.white.None? && u !in others
    ensures OnlookerNames(t, others + [u]) == NamesOf(others)
    decreases |others|
  {
    if others == [] {
      assert (others + [u])[1..] == [];
    } else {
      assert (others + [u])[1..] == others[1..] + [u];
      assert others[0] in others;
      SolePlayerNames(t, others[1..], u);
    }
  }

  /** A join to a new room succeeds exactly when the room's name fits and the role is a player's,
      or an onlooker's in a room with places for onlookers. */
  lemma {:induction false} FirstJoinSucceedsIff(name: seq<byte>, maxUsers: int, u: User, role: byte)
    ensures Possible(NewLobby(name, maxUsers), JoinRoom(u, role))
    ensures Succeeds(NewLobby(name, maxUsers), JoinRoom(u, role)) <==>
      |name| <= 255 && (role == ROLE_PLAYER || (role == ROLE_ONLOOKER && maxUsers > 2))
  {
    var l := NewLobby(name, maxUsers);
    if Admit(l, u, role).Some? {
      var l' := After(l, JoinRoom(u, role));
      assert l'.users == [u];
      OneUserNames(l'.table, u);
      SnapshotFitsIff(l');
    }
  }

  lemma {:induction false} OneUserNames(t: Table, u: User)
    ensures |OnlookerNames(t, [u])| <= 1 && TotalSize(OnlookerNames(t, [u])) <= 1 + |u.name|
  {
    assert [u][1..] == [] && OnlookerNames(t, []) == [];
    assert OnlookerNames(t, [u]) == (if IsPlayer(t, u) then [] else [u.name]) + [];
    assert [u.name][1..] == [];
  }
}
