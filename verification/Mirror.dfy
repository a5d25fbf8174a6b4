/** What a joined client sees: from its join snapshot on, through every later event of the room,
    its copy is compared with the server's table. Sends succeed and arrive in order, and the
    connection joined once, so a client receives the packets addressed to its user object. */
module Mirror {
  import opened Bytes
  import opened Codec
  import opened Messages
  import opened Chess
  import opened Tables
  import opened Rules
  import opened RoomEffects
  import opened Lobby
  import opened LobbyRuns
  import opened ClientViews
  import opened UserInfos

  // ---------- the packets addressed to one user ----------

  function Addressed(u: User, sends: seq<Send>): seq<Packet> {
    if sends == [] then []
    else (if sends[0].to == u then [sends[0].packet] else []) + Addressed(u, sends[1..])
  }

  lemma {:induction false} AddressedSplits(u: User, a: seq<Send>, b: seq<Send>)
    ensures Addressed(u, a + b) == Addressed(u, a) + Addressed(u, b)
    decreases |a|
  {
    if a == [] {
      assert a + b == b;
    } else {
      assert (a + b)[1..] == a[1..] + b;
      AddressedSplits(u, a[1..], b);
    }
  }

  lemma {:induction false} AddressedToOne(u: User, v: User, sends: seq<Send>, packets: seq<Packet>)
    requires |sends| == |packets| && forall i :: 0 <= i < |sends| ==> sends[i] == Send(v, packets[i])
    ensures Addressed(u, sends) == if u == v then packets else []
    decreases |sends|
  {
    if sends != [] {
      AddressedToOne(u, v, sends[1..], packets[1..]);
    }
  }

  /** A broadcast gives every listed user each packet once, in order, and nobody else anything. */
  lemma {:induction false} BroadcastReachesListed(users: seq<User>, u: User, packets: seq<Packet>)
    requires Distinct(users)
    ensures Addressed(u, ToAll(users, packets)) == if u in users then packets else []
    decreases |users|
  {
    if users != [] {
      var first := seq(|packets|, i requires 0 <= i < |packets| => Send(users[0], packets[i]));
      AddressedSplits(u, first, ToAll(users[1..], packets));
      AddressedToOne(u, users[0], first, packets);
      BroadcastReachesListed(users[1..], u, packets);
      assert u in users <==> u == users[0] || u in users[1..];
    }
  }

  /** In every run both seated players are addressed by every broadcast, exactly once. */
  lemma {:induction false} PlayersAreAddressed(
    name: seq<byte>, maxUsers: int, es: seq<Event>, u: User, packets: seq<Packet>)
    requires FreshFrom({}, es) && IsPlayer(RunOpened(name, maxUsers, es).lobby.table, u)
    ensures Addressed(u, ToAll(RunOpened(name, maxUsers, es).lobby.users, packets)) == packets
  {
    var l := RunOpened(name, maxUsers, es).lobby;
    SeatedAreThePlayers(l.table, u);
    BroadcastReachesListed(l.users, u, packets);
  }

  // ---------- packets that leave records and board alone ----------

  predicate Quiet(p: Packet) {
    || (p.instruction == C_OTHER_JOIN_ROOM && DecodeBlob("1", p.data).Some? && DecodeBlob("1", p.data).value.rest != [])
    || (p.instruction in {C_USER_LEAVE_ROOM, C_GAME_START} && DecodeBlob("1", p.data).Some?)
    || (p.instruction == C_PLAYER_READY && p.data != [])
    || (p.instruction == C_MESSAGE && TakeChat(p.data).Some?)
    || (p.instruction == C_USER_INFO && TakeUserInfo(p.data).Some?)
  }

  predicate AllQuiet(ps: seq<Packet>) {
    forall i :: 0 <= i < |ps| ==> Quiet(ps[i])
  }

  predicate QuietSends(sends: seq<Send>) {
    forall i :: 0 <= i < |sends| ==> Quiet(sends[i].packet)
  }

  lemma {:induction false} QuietInbox(u: User, sends: seq<Send>)
    requires QuietSends(sends)
    ensures AllQuiet(Addressed(u, sends))
    decreases |sends|
  {
    if sends != [] {
      assert QuietSends(sends[1..]);
      QuietInbox(u, sends[1..]);
    }
  }

  lemma {:induction false} NameDecodes(name: Name, tail: seq<byte>)
    ensures DecodeBlob("1", NameBytes(name) + tail) == Some(Parsed(name, tail))
    ensures DecodeBlob("1", NameBytes(name)) == Some(Parsed(name, []))
  {
    assert EncodeBlob("1", name) == Some(NameBytes(name));
    BlobRoundTrips("1", name, tail);
    BlobRoundTrips("1", name, []);
    assert NameBytes(name) + [] == NameBytes(name);
  }

  lemma {:induction false} TellOthersIsQuiet(users: seq<User>, joiner: User, role: byte)
    ensures QuietSends(TellOthers(users, joiner, role))
    ensures Addressed(joiner, TellOthers(users, joiner, role)) == []
    decreases |users|
  {
    if users != [] {
      NameDecodes(users[0].name, [role]);
      TellOthersIsQuiet(users[1..], joiner, role);
    }
  }

  lemma {:induction false} TellLeaverIsQuiet(users: seq<User>, leaver: User)
    ensures QuietSends(TellLeaver(users, leaver))
  {
    forall i | 0 <= i < |users|
      ensures Quiet(TellLeaver(users, leaver)[i].packet)
    {
      NameDecodes(users[i].name, []);
    }
  }

  lemma {:induction false} ReadyIsQuiet(t: Table, u: User)
    requires Sound(t)
    ensures AllQuiet(ReadyPackets(t, u))
  {
    if Completes(t, u) {
      NameDecodes(Tables.Ready(t, u).black.value.name, []);
    }
  }

  lemma {:induction false} ChatIsQuiet(u: User, data: seq<byte>, now: LongWord)
    ensures AllQuiet(ChatPackets(u, data, now))
  {
    CapacityOfWords();
    if ChatPackets(u, data, now) != [] {
      ChatArrives(Chat(now, u.name, LineOf(data).value));
    }
  }

  lemma {:induction false} InfoIsQuiet(l: Lobby, u: User, data: seq<byte>)
    ensures QuietSends(InfoSends(l, u, data))
  {
    CapacityOfWords();
    if InfoSends(l, u, data) != [] {
      UserInfoArrives(InfoOf(FirstNamed(l.users, NameAskedFor(data).value).value));
    }
  }

  lemma {:induction false} QuietChangesNothing(v: View, p: Packet)
    requires Quiet(p)
    ensures Safe(p) && Apply(v, p).Some?
    ensures Apply(v, p).value.info.records == v.info.records && Apply(v, p).value.board == v.board
  {
    if p.instruction == C_MESSAGE {
      ChatChangesNothing(v, p);
    } else if p.instruction == C_USER_INFO {
      InfoChangesNothing(v, p);
    } else {
      NewsChangesNothing(v, p);
    }
  }

  lemma {:induction false} NewsChangesNothing(v: View, p: Packet)
    requires Quiet(p) && p.instruction in {C_OTHER_JOIN_ROOM, C_USER_LEAVE_ROOM, C_GAME_START, C_PLAYER_READY}
    ensures Safe(p) && Apply(v, p).Some?
    ensures Apply(v, p).value.info.records == v.info.records && Apply(v, p).value.board == v.board
  {
  }

  lemma {:induction false} ChatChangesNothing(v: View, p: Packet)
    requires p.instruction == C_MESSAGE && TakeChat(p.data).Some?
    ensures Safe(p) && Apply(v, p) == Some(v)
  {
    assert Apply(v, p) == OnMessage(v, p.data);
  }

  lemma {:induction false} InfoChangesNothing(v: View, p: Packet)
    requires p.instruction == C_USER_INFO && TakeUserInfo(p.data).Some?
    ensures Safe(p) && Apply(v, p) == Some(v)
  {
    assert Apply(v, p) == OnUserInfo(v, p.data);
  }

  lemma {:induction false} QuietDelivery(v: View, ps: seq<Packet>)
    requires AllQuiet(ps)
    ensures forall i :: 0 <= i < |ps| ==> Safe(ps[i])
    ensures var c := Deliver(Some(v), ps);
      c.Some? && c.value.info.records == v.info.records && c.value.board == v.board
    decreases |ps|
  {
    if ps != [] {
      QuietChangesNothing(v, ps[0]);
      assert AllQuiet(ps[1..]);
      QuietDelivery(Apply(v, ps[0]).value, ps[1..]);
    }
  }

  // ---------- what one event delivers to a listed user ----------

  ghost predicate WinsNow(t: Table, e: Event)
    requires Sound(t)
  {
    e.PlayerStone? && Plays(t, e.user, e.data) && Wins(AfterStone(t, e.user, e.data).chess)
  }

  predicate StoneNow(t: Table, e: Event)
    requires Sound(t)
  {
    e.PlayerStone? && Plays(t, e.user, e.data)
  }

  lemma {:induction false} QuietBroadcast(users: seq<User>, u: User, packets: seq<Packet>)
    requires Distinct(users) && AllQuiet(packets)
    ensures AllQuiet(Addressed(u, ToAll(users, packets)))
  {
    BroadcastReachesListed(users, u, packets);
  }

  lemma {:induction false} OthersJoinIsQuiet(l: Lobby, w: User, role: byte, u: User)
    requires Possible(l, JoinRoom(w, role)) && w != u
    ensures AllQuiet(Addressed(u, Sends(l, JoinRoom(w, role))))
  {
    if Admit(l, w, role).Some? {
      var l' := After(l, JoinRoom(w, role));
      TellOthersIsQuiet(l'.users, w, role);
      QuietInbox(u, TellOthers(l'.users, w, role));
      AddressedSplits(u, TellOthers(l'.users, w, role), SnapshotSends(l', w));
      assert Addressed(u, SnapshotSends(l', w)) == [];
    }
  }

  /** Apart from an accepted stone, nothing a listed user receives touches records or board. */
  lemma {:induction false} OtherEventsAreQuiet(l: Lobby, crowd: Crowd, e: Event, u: User)
    requires Possible(l, e) && LobbyRoster(l, crowd) && Fresh(crowd, e) && u in l.users && !StoneNow(l.table, e)
    ensures AllQuiet(Addressed(u, Sends(l, e)))
  {
    ListedDoesNotJoin(l, crowd, e, u);
    OthersEventIsQuiet(l, e, u);
  }

  lemma {:induction false} ListedDoesNotJoin(l: Lobby, crowd: Crowd, e: Event, u: User)
    requires LobbyRoster(l, crowd) && Fresh(crowd, e) && u in l.users
    ensures Distinct(l.users) && (e.JoinRoom? ==> e.user != u)
  {
  }

  lemma {:induction false} OthersEventIsQuiet(l: Lobby, e: Event, u: User)
    requires Possible(l, e) && Distinct(l.users) && (e.JoinRoom? ==> e.user != u) && !StoneNow(l.table, e)
    ensures AllQuiet(Addressed(u, Sends(l, e)))
  {
    match e
    case JoinRoom(w, role) =>
      OthersJoinIsQuiet(l, w, role, u);
    case PlayerReady(w) =>
      ReadyIsQuiet(l.table, w);
      QuietBroadcast(l.users, u, ReadyPackets(l.table, w));
    case PlayerStone(w, data) => QuietBroadcast(l.users, u, StonePackets(l.table, w, data));
    case PlayerRegret(_) => QuietInbox(u, []);
    case LeaveRoom(w) =>
      TellLeaverIsQuiet(l.users, w);
      QuietInbox(u, TellLeaver(l.users, w));
    case Say(w, data, now) =>
      ChatIsQuiet(w, data, now);
      QuietBroadcast(l.users, u, ChatPackets(w, data, now));
    case AskInfo(w, data) =>
      InfoIsQuiet(l, w, data);
      QuietInbox(u, InfoSends(l, w, data));
  }

  /** An accepted stone reaches a listed user as the stone and, if it won, the winner. */
  lemma {:induction false} StoneReachesListed(l: Lobby, crowd: Crowd, e: Event, u: User)
    requires Possible(l, e) && LobbyRoster(l, crowd) && u in l.users && StoneNow(l.table, e)
    ensures Addressed(u, Sends(l, e)) == StonePackets(l.table, e.user, e.data)
  {
    BroadcastReachesListed(l.users, u, StonePackets(l.table, e.user, e.data));
  }

  /** The joiner receives exactly its snapshot, and it decodes to the room it joined. */
  lemma {:induction false} JoinerReceivesSnapshot(l: Lobby, u: User, role: byte)
    requires Possible(l, JoinRoom(u, role)) && Succeeds(l, JoinRoom(u, role))
    ensures var l', ps := After(l, JoinRoom(u, role)), Addressed(u, Sends(l, JoinRoom(u, role)));
      && |ps| == 1 && ps[0].instruction == C_YOU_JOIN_ROOM
      && TakeJoinReply(ps[0].data) == Some(Joined(SnapshotOf(l')))
  {
    var l' := After(l, JoinRoom(u, role));
    TellOthersIsQuiet(l'.users, u, role);
    AddressedSplits(u, TellOthers(l'.users, u, role), SnapshotSends(l', u));
    var ps := [Packet(C_YOU_JOIN_ROOM, SnapshotBytes(l').value)];
    AddressedToOne(u, u, SnapshotSends(l', u), ps);
    SnapshotArrives(SnapshotOf(l'));
  }

  // ---------- the copy ----------

  /** The client's records are `records`, and its board is theirs in the colours of a client that
      joined when `joined` of them were there. */
  ghost predicate Mirrors(v: View, records: seq<byte>, joined: nat) {
    && OnBoardAll(records) && v.info.records == records && joined <= |records|
    && v.board == Coloured(records, joined)
  }

  /** A client's view (nothing once a handler threw), the stones of games that ended by a new
      start since it joined, whether a winning stone was accepted since then, and the number of
      stones it joined at. */
  datatype Copy = Copy(view: Option<View>, carried: seq<byte>, won: bool, joined: nat)

  ghost predicate SafeInbox(l: Lobby, e: Event, u: User)
    requires Possible(l, e)
  {
    var ps := Addressed(u, Sends(l, e));
    forall i :: 0 <= i < |ps| ==> Safe(ps[i])
  }

  ghost function CopyAfter(l: Lobby, e: Event, u: User, c: Copy): Copy
    requires Possible(l, e) && SafeInbox(l, e, u)
  {
    Copy(Deliver(c.view, Addressed(u, Sends(l, e))),
         if Starts(l.table, e) then c.carried + Log(l.table.chess) else c.carried,
         c.won || WinsNow(l.table, e),
         c.joined)
  }

  ghost predicate CopyInv(l: Lobby, c: Copy)
    requires Admissible(l)
  {
    && (c.view.Some? <==> !c.won)
    && (c.view.Some? ==> Mirrors(c.view.value, c.carried + Log(l.table.chess), c.joined))
  }

  lemma {:induction false} DeliverOne(v: View, p: Packet)
    requires Safe(p)
    ensures Deliver(Some(v), [p]) == Apply(v, p)
  {
    assert [p][1..] == [];
  }

  lemma {:induction false} DeliverTwo(v: View, p: Packet, w: View, q: Packet)
    requires Safe(p) && Safe(q) && Apply(v, p) == Some(w)
    ensures Deliver(Some(v), [p, q]) == Apply(w, q)
  {
    assert [p, q][1..] == [q];
    DeliverOne(w, q);
  }

  /** The game-over packet carries the winner only; the client's handler reads on and throws. */
  lemma {:induction false} GameOverDisconnects(v: View, winner: byte)
    ensures Safe(Packet(C_GAME_OVER, [winner])) && Apply(v, Packet(C_GAME_OVER, [winner])) == None
  {
  }

  lemma {:induction false} StoneIsAdded(v: View, coor: byte)
    requires OnBoard(ParseCoor(coor))
    ensures Safe(Packet(C_STONE, [coor])) && Apply(v, Packet(C_STONE, [coor])) == Some(AddStone(v, coor))
  {
  }

  /** What a listed client makes of an accepted stone. */
  lemma {:induction false} StoneDelivery(v: View, records: seq<byte>, joined: nat, coor: byte, winner: byte, won: bool)
    requires Mirrors(v, records, joined) && OnBoard(ParseCoor(coor))
    ensures var ps := [Packet(C_STONE, [coor])] + if won then [Packet(C_GAME_OVER, [winner])] else [];
      && (forall i :: 0 <= i < |ps| ==> Safe(ps[i]))
      && (Deliver(Some(v), ps).Some? <==> !won)
      && (!won ==> Mirrors(Deliver(Some(v), ps).value, records + [coor], joined))
  {
    var stone, over := Packet(C_STONE, [coor]), Packet(C_GAME_OVER, [winner]);
    var w := AddStone(v, coor);
    StoneKeepsColours(v, joined, coor);
    StoneIsAdded(v, coor);
    if won {
      GameOverDisconnects(w, winner);
      DeliverTwo(v, stone, w, over);
      assert [stone] + [over] == [stone, over];
    } else {
      DeliverOne(v, stone);
      assert [stone] + [] == [stone];
    }
  }

  lemma {:induction false} StoneKeepsCopy(l: Lobby, crowd: Crowd, e: Event, u: User, c: Copy)
    requires Possible(l, e) && LobbyRoster(l, crowd) && u in l.users && StoneNow(l.table, e)
    requires CopyInv(l, c)
    ensures SafeInbox(l, e, u) && CopyInv(After(l, e), CopyAfter(l, e, u, c))
  {
    StoneReachesListed(l, crowd, e, u);
    var log := Log(l.table.chess);
    StoneIsLogged(l.table, e.user, e.data);
    Regroup(c.carried, log, [e.data[1]]);
    if c.view.Some? {
      StoneDelivery(c.view.value, c.carried + log, c.joined, e.data[1], Turn(l.table.chess), WinsNow(l.table, e));
    } else {
      StoneIsSafe(l.table, e.user, e.data);
    }
  }

  lemma {:induction false} Regroup(a: seq<byte>, b: seq<byte>, c: seq<byte>)
    ensures a + (b + c) == a + b + c
  {
  }

  lemma {:induction false} StoneIsLogged(t: Table, u: User, data: seq<byte>)
    requires Sound(t) && Plays(t, u, data)
    ensures Log(AfterStone(t, u, data).chess) == Log(t.chess) + [data[1]]
    ensures OnBoard(ParseCoor(data[1]))
  {
  }

  lemma {:induction false} StoneIsSafe(t: Table, u: User, data: seq<byte>)
    requires Sound(t) && Plays(t, u, data)
    ensures forall i :: 0 <= i < |StonePackets(t, u, data)| ==> Safe(StonePackets(t, u, data)[i])
  {
  }

  lemma {:induction false} QuietIsSafe(ps: seq<Packet>)
    requires AllQuiet(ps)
    ensures forall i :: 0 <= i < |ps| ==> Safe(ps[i])
  {
    forall i | 0 <= i < |ps|
      ensures Safe(ps[i])
    {
      assert Quiet(ps[i]);
    }
  }

  /** An event that places no stone leaves the log alone, or empties it by a start. */
  lemma {:induction false} RecordsStand(l: Lobby, e: Event)
    requires Possible(l, e) && !StoneNow(l.table, e)
    ensures Log(After(l, e).table.chess) == if Starts(l.table, e) then [] else Log(l.table.chess)
  {
  }

  lemma {:induction false} OtherKeepsCopy(l: Lobby, crowd: Crowd, e: Event, u: User, c: Copy)
    requires Possible(l, e) && LobbyRoster(l, crowd) && Fresh(crowd, e) && u in l.users && !StoneNow(l.table, e)
    requires CopyInv(l, c)
    ensures SafeInbox(l, e, u) && CopyInv(After(l, e), CopyAfter(l, e, u, c))
  {
    var ps := Addressed(u, Sends(l, e));
    assert AllQuiet(ps) by { OtherEventsAreQuiet(l, crowd, e, u); }
    QuietIsSafe(ps);
    assert SafeInbox(l, e, u);
    RecordsStand(l, e);
    var log := Log(l.table.chess);
    assert c.carried + log + [] == c.carried + log;
    if c.view.Some? {
      QuietDelivery(c.view.value, ps);
    }
  }

  lemma {:induction false} EventKeepsCopy(l: Lobby, crowd: Crowd, e: Event, u: User, c: Copy)
    requires Possible(l, e) && LobbyRoster(l, crowd) && Fresh(crowd, e) && u in l.users
    requires CopyInv(l, c)
    ensures SafeInbox(l, e, u) && CopyInv(After(l, e), CopyAfter(l, e, u, c))
  {
    if StoneNow(l.table, e) {
      StoneKeepsCopy(l, crowd, e, u, c);
    } else {
      OtherKeepsCopy(l, crowd, e, u, c);
    }
  }

  // ---------- whole runs ----------

  /** The user stays listed all along. */
  ghost predicate Stays(h: History, es: seq<Event>, u: User)
    requires Inv(h) && FreshFrom(h.crowd.asked, es)
  {
    u in RunFrom(h, es).lobby.users && (es == [] || Stays(h, es[..|es| - 1], u))
  }

  /** The stones that lay on the board at the starts of a run, game after game. */
  ghost function StonesRestarted(h: History, es: seq<Event>): (stones: seq<byte>)
    requires Inv(h) && FreshFrom(h.crowd.asked, es)
  {
    if es == [] then []
    else
      var t := RunFrom(h, es[..|es| - 1]).lobby.table;
      var before := StonesRestarted(h, es[..|es| - 1]);
      if Starts(t, es[|es| - 1]) then before + Log(t.chess) else before
  }

  /** Every start of the run finds an empty board. */
  ghost predicate StartsFindNoStones(h: History, es: seq<Event>)
    requires Inv(h) && FreshFrom(h.crowd.asked, es)
  {
    es == [] ||
    var t := RunFrom(h, es[..|es| - 1]).lobby.table;
    StartsFindNoStones(h, es[..|es| - 1]) && (Starts(t, es[|es| - 1]) ==> Log(t.chess) == [])
  }

  /** Some stone of the run won. */
  ghost predicate SomeWin(h: History, es: seq<Event>)
    requires Inv(h) && FreshFrom(h.crowd.asked, es)
  {
    es != [] &&
    var t := RunFrom(h, es[..|es| - 1]).lobby.table;
    SomeWin(h, es[..|es| - 1]) || WinsNow(t, es[|es| - 1])
  }

  lemma {:induction false} RestartedIff(h: History, es: seq<Event>)
    requires Inv(h) && FreshFrom(h.crowd.asked, es)
    ensures StonesRestarted(h, es) == [] <==> StartsFindNoStones(h, es)
    decreases |es|
  {
    if es != [] {
      RestartedIff(h, es[..|es| - 1]);
    }
  }

  ghost function RunCopy(h: History, es: seq<Event>, view: Option<View>, joined: nat): Copy
    requires Inv(h) && FreshFrom(h.crowd.asked, es)
  {
    Copy(view, StonesRestarted(h, es), SomeWin(h, es), joined)
  }

  lemma {:induction false} OneMoreInCopy(h: History, es: seq<Event>, u: User, view: Option<View>, joined: nat)
    requires Inv(h) && FreshFrom(h.crowd.asked, es) && es != [] && Stays(h, es, u)
    requires CopyInv(RunFrom(h, es[..|es| - 1]).lobby, RunCopy(h, es[..|es| - 1], view, joined))
    ensures var h1, e := RunFrom(h, es[..|es| - 1]), es[|es| - 1];
      && Possible(h1.lobby, e) && SafeInbox(h1.lobby, e, u)
      && CopyInv(RunFrom(h, es).lobby, RunCopy(h, es, Deliver(view, Addressed(u, Sends(h1.lobby, e))), joined))
  {
    var before, e := es[..|es| - 1], es[|es| - 1];
    var h1 := RunFrom(h, before);
    FreshIsPossible(h1.lobby, h1.crowd, e);
    EventKeepsCopy(h1.lobby, h1.crowd, e, u, RunCopy(h, before, view, joined));
  }

  /** What the client shows after a run, starting from what the join left. */
  ghost function ViewFrom(h: History, es: seq<Event>, u: User, view: Option<View>, joined: nat): (view': Option<View>)
    requires Inv(h) && FreshFrom(h.crowd.asked, es) && Stays(h, es, u)
    requires CopyInv(h.lobby, Copy(view, [], false, joined))
    ensures CopyInv(RunFrom(h, es).lobby, RunCopy(h, es, view', joined))
  {
    if es == [] then view
    else
      var view1 := ViewFrom(h, es[..|es| - 1], u, view, joined);
      OneMoreInCopy(h, es, u, view1, joined);
      Deliver(view1, Addressed(u, Sends(RunFrom(h, es[..|es| - 1]).lobby, es[|es| - 1])))
  }

  lemma {:induction false} SnapshotDelivery(v: View, data: seq<byte>, s: Snapshot)
    requires TakeJoinReply(data) == Some(Joined(s)) && OnBoardAll(s.records)
    ensures Safe(Packet(C_YOU_JOIN_ROOM, data))
    ensures Deliver(Some(v), [Packet(C_YOU_JOIN_ROOM, data)]) == Some(View(s, BoardByRecords(s.records)))
  {
    DeliverOne(v, Packet(C_YOU_JOIN_ROOM, data));
  }

  lemma {:induction false} JoinDelivers(l: Lobby, u: User, role: byte, v: View)
    requires Possible(l, JoinRoom(u, role)) && Succeeds(l, JoinRoom(u, role))
    ensures SafeInbox(l, JoinRoom(u, role), u)
    ensures CopyInv(After(l, JoinRoom(u, role)),
                    Copy(Deliver(Some(v), Addressed(u, Sends(l, JoinRoom(u, role)))), [], false, |Log(l.table.chess)|))
  {
    JoinerReceivesSnapshot(l, u, role);
    JoinLeavesLog(l, u, role);
    SnapshotIsMirrored(After(l, JoinRoom(u, role)), Addressed(u, Sends(l, JoinRoom(u, role))), v);
  }

  lemma {:induction false} JoinLeavesLog(l: Lobby, u: User, role: byte)
    requires Possible(l, JoinRoom(u, role))
    ensures Log(After(l, JoinRoom(u, role)).table.chess) == Log(l.table.chess)
  {
  }

  lemma {:induction false} SnapshotIsMirrored(l: Lobby, ps: seq<Packet>, v: View)
    requires Admissible(l) && |ps| == 1 && ps[0].instruction == C_YOU_JOIN_ROOM
    requires TakeJoinReply(ps[0].data) == Some(Joined(SnapshotOf(l)))
    ensures forall i :: 0 <= i < |ps| ==> Safe(ps[i])
    ensures CopyInv(l, Copy(Deliver(Some(v), ps), [], false, |Log(l.table.chess)|))
  {
    LogIsOnBoard(l);
    assert ps == [Packet(C_YOU_JOIN_ROOM, ps[0].data)];
    SnapshotDelivery(v, ps[0].data, SnapshotOf(l));
    CopyOfSnapshot(l);
  }

  lemma {:induction false} CopyOfSnapshot(l: Lobby)
    requires Admissible(l) && OnBoardAll(SnapshotOf(l).records)
    ensures var s := SnapshotOf(l);
      CopyInv(l, Copy(Some(View(s, BoardByRecords(s.records))), [], false, |Log(l.table.chess)|))
  {
    LogIsOnBoard(l);
    RebuiltMirrors(SnapshotOf(l));
  }

  lemma {:induction false} LogIsOnBoard(l: Lobby)
    requires Admissible(l)
    ensures SnapshotOf(l).records == Log(l.table.chess) && OnBoardAll(SnapshotOf(l).records)
  {
  }

  lemma {:induction false} RebuiltMirrors(s: Snapshot)
    requires OnBoardAll(s.records)
    ensures Mirrors(View(s, BoardByRecords(s.records)), [] + s.records, |s.records|)
  {
    RebuiltIsColoured(s.records);
    assert [] + s.records == s.records;
  }

  /** What a successful join leaves, whatever the client showed before. */
  ghost function ViewAtJoin(l: Lobby, u: User, role: byte, v: View): (view: Option<View>)
    requires Possible(l, JoinRoom(u, role)) && Succeeds(l, JoinRoom(u, role))
    ensures CopyInv(After(l, JoinRoom(u, role)), Copy(view, [], false, |Log(l.table.chess)|))
  {
    JoinDelivers(l, u, role, v);
    Deliver(Some(v), Addressed(u, Sends(l, JoinRoom(u, role))))
  }

  // ---------- the main results ----------

  /** What a client shows after a run from its join on: nothing once a handler threw. */
  ghost function ClientShows(h: History, u: User, role: byte, v: View, es: seq<Event>): Option<View>
    requires Inv(h) && u !in h.crowd.asked && Possible(h.lobby, JoinRoom(u, role))
    requires Succeeds(h.lobby, JoinRoom(u, role))
    requires FreshFrom(h.crowd.asked + {u}, es) && Stays(Next(h, JoinRoom(u, role)), es, u)
  {
    ViewFrom(Next(h, JoinRoom(u, role)), es, u, ViewAtJoin(h.lobby, u, role, v), |Log(h.lobby.table.chess)|)
  }

  lemma {:induction false} ShownIsMirrored(h: History, u: User, role: byte, v: View, es: seq<Event>)
    requires Inv(h) && u !in h.crowd.asked && Possible(h.lobby, JoinRoom(u, role))
    requires Succeeds(h.lobby, JoinRoom(u, role))
    requires FreshFrom(h.crowd.asked + {u}, es) && Stays(Next(h, JoinRoom(u, role)), es, u)
    ensures
      var h1, shown := Next(h, JoinRoom(u, role)), ClientShows(h, u, role, v, es);
      && (shown.Some? <==> !SomeWin(h1, es))
      && (shown.Some? ==>
            Mirrors(shown.value, StonesRestarted(h1, es) + Log(RunFrom(h1, es).lobby.table.chess),
                    |Log(h.lobby.table.chess)|))
  {
  }

  /** How the client's board compares with the server's, rows and columns swapped, when it shows
      the stones restarted over since its join and then the server's. */
  ghost predicate BoardsCompare(v: View, s: State, restarted: seq<byte>, joined: nat)
    requires Logged(s)
  {
    && (v.board == Transpose(s.board) <==> Right(restarted, Log(s), joined))
    && ((forall p {:trigger OnBoard(p)} :: OnBoard(p) ==> (At(v.board, Swap(p)) != SPACE <==> At(s.board, p) != SPACE))
        <==> AllIn(restarted, Log(s)))
    && (Right(restarted, Log(s), joined) ==> (Fives(v.board) != {} <==> Fives(s.board) != {}))
  }

  /** From its join on, while it stays listed, no handler of the client throws exactly as long as
      no stone won. Then its records are the stones that lay on the board at the starts since,
      followed by the server's log, so they equal the log exactly when every start since the join
      found an empty board. Its board occupies the server's cells exactly when every stone
      restarted over lies there again, and is the server's board exactly when, besides, those
      stones are even in number or, if there are none, it joined at an empty log. */
  lemma {:induction false} ClientTracksServer(h: History, u: User, role: byte, v: View, es: seq<Event>)
    requires Inv(h) && u !in h.crowd.asked && Possible(h.lobby, JoinRoom(u, role))
    requires Succeeds(h.lobby, JoinRoom(u, role))
    requires FreshFrom(h.crowd.asked + {u}, es) && Stays(Next(h, JoinRoom(u, role)), es, u)
    ensures
      var h1, shown := Next(h, JoinRoom(u, role)), ClientShows(h, u, role, v, es);
      var chess, joined := RunFrom(h1, es).lobby.table.chess, |Log(h.lobby.table.chess)|;
      && (shown.Some? <==> !SomeWin(h1, es))
      && (shown.Some? ==> Mirrors(shown.value, StonesRestarted(h1, es) + Log(chess), joined))
      && (shown.Some? ==> (shown.value.info.records == Log(chess) <==> StartsFindNoStones(h1, es)))
      && (shown.Some? ==> BoardsCompare(shown.value, chess, StonesRestarted(h1, es), joined))
  {
    var h1, shown := Next(h, JoinRoom(u, role)), ClientShows(h, u, role, v, es);
    var h2 := RunFrom(h1, es);
    ShownIsMirrored(h, u, role, v, es);
    RestartedIff(h1, es);
    if shown.Some? {
      GameOfRun(h2);
      JoinLeavesLog(h.lobby, u, role);
      RestartedCoverSnapshot(h1, es);
      RecordsCompared(StonesRestarted(h1, es), Log(h2.lobby.table.chess));
      BoardsCompared(shown.value, h2.lobby.table.chess, StonesRestarted(h1, es), |Log(h.lobby.table.chess)|);
    }
  }

  lemma {:induction false} RecordsCompared(restarted: seq<byte>, log: seq<byte>)
    ensures restarted + log == log <==> restarted == []
  {
    assert |restarted + log| == |restarted| + |log|;
  }

  /** The first stones restarted over are at least those there at the beginning of the run. */
  lemma {:induction false} RestartedCoverSnapshot(h: History, es: seq<Event>)
    requires Inv(h) && FreshFrom(h.crowd.asked, es)
    ensures StonesRestarted(h, es) == [] ==> |Log(RunFrom(h, es).lobby.table.chess)| >= |Log(h.lobby.table.chess)|
    ensures StonesRestarted(h, es) != [] ==> |StonesRestarted(h, es)| >= |Log(h.lobby.table.chess)|
    decreases |es|
  {
    if es != [] {
      RestartedCoverSnapshot(h, es[..|es| - 1]);
      LogGrows(RunFrom(h, es[..|es| - 1]), es[|es| - 1]);
    }
  }

  lemma {:induction false} LogGrows(h: History, e: Event)
    requires Inv(h) && Fresh(h.crowd, e)
    ensures !Starts(h.lobby.table, e) ==> |Log(Next(h, e).lobby.table.chess)| >= |Log(h.lobby.table.chess)|
    ensures Starts(h.lobby.table, e) ==> Log(Next(h, e).lobby.table.chess) == []
  {
    FreshIsPossible(h.lobby, h.crowd, e);
    if !Starts(h.lobby.table, e) {
      StepMovesOn(h.lobby, e);
    } else {
      RecordsStand(h.lobby, e);
    }
  }

  lemma {:induction false} GameOfRun(h: History)
    requires Inv(h)
    ensures Logged(h.lobby.table.chess) && h.lobby.table.chess.board == Replay(Log(h.lobby.table.chess))
  {
  }

  lemma {:induction false} BoardsCompared(v: View, s: State, restarted: seq<byte>, joined: nat)
    requires Logged(s) && s.board == Replay(Log(s)) && Mirrors(v, restarted + Log(s), joined)
    requires restarted == [] ==> joined <= |Log(s)|
    requires restarted != [] ==> joined <= |restarted|
    ensures BoardsCompare(v, s, restarted, joined)
  {
    assert OnBoardAll(restarted) by { FrontOnBoard(restarted, Log(s)); }
    RestartedIsRightIff(restarted, Log(s), joined);
    SameCellsIff(restarted, Log(s), joined);
    FivesOfTranspose(s.board);
  }

  /** The message the client sends to place a stone: how many records it has, as a byte, and
      the cell. */
  function StoneMessage(v: View, coor: byte): seq<byte> {
    [|v.info.records| % 256, coor]
  }

  /** A connected client's stone is placed exactly when a game goes on, it is its turn (the white
      seat begins), the cell is empty and the stones on the board at the starts since it joined
      number a multiple of 256. So after one restart with stones on the board it cannot play any
      more. */
  lemma {:induction false} ClientStonePlacedIff(
    h: History, u: User, role: byte, v: View, es: seq<Event>, coor: byte)
    requires Inv(h) && u !in h.crowd.asked && Possible(h.lobby, JoinRoom(u, role))
    requires Succeeds(h.lobby, JoinRoom(u, role))
    requires FreshFrom(h.crowd.asked + {u}, es) && Stays(Next(h, JoinRoom(u, role)), es, u)
    requires ClientShows(h, u, role, v, es).Some?
    ensures
      var h1, shown := Next(h, JoinRoom(u, role)), ClientShows(h, u, role, v, es);
      var t := RunFrom(h1, es).lobby.table;
      Plays(t, u, StoneMessage(shown.value, coor)) <==>
        && t.isPlaying && Some(u) == (if t.chess.cursor % 2 == 0 then t.white else t.black)
        && Has(t.chess.board, coor % 16, coor / 16, 255) && |StonesRestarted(h1, es)| % 256 == 0
  {
    var h1, shown := Next(h, JoinRoom(u, role)), ClientShows(h, u, role, v, es);
    var t := RunFrom(h1, es).lobby.table;
    ShownIsMirrored(h, u, role, v, es);
    StoneNumberFits(t.chess, shown.value, StonesRestarted(h1, es));
    PlaysIff(t, u, StoneMessage(shown.value, coor));
  }

  lemma {:induction false} StoneNumberFits(s: State, v: View, restarted: seq<byte>)
    requires Logged(s) && v.info.records == restarted + Log(s)
    ensures |v.info.records| % 256 == s.cursor <==> |restarted| % 256 == 0
  {
    LogFits(Log(s));
    assert |v.info.records| == |restarted| + s.cursor;
  }
}
