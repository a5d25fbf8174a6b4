/** What players who come and go leave behind: they stay listed, and enough of them close a room
    for good. */
module PileUp {
  import opened Bytes
  import opened Messages
  import opened Chess
  import opened Tables
  import opened Lobby
  import opened LobbyRuns
  import opened Departures
  import Framing

  // ---------- one round after another ----------

  /** Every user in turn takes a seat and leaves. */
  function Rounds(users: seq<User>): seq<Event> {
    if users == [] then []
    else
      var last := |users| - 1;
      Rounds(users[..last]) + [JoinRoom(users[last], ROLE_PLAYER)] + [LeaveRoom(users[last])]
  }

  ghost predicate NobodySits(h: History) {
    h.lobby.table.black.None? && h.lobby.table.white.None?
  }

  /** A round lists the user for good and leaves the rest of the room as it was. */
  ghost predicate RoundEffect(h: History, h': History, u: User) {
    && NobodySits(h') && h'.lobby == h.lobby.(users := h.lobby.users + [u], table := h'.lobby.table)
    && h'.lobby.table.chess == h.lobby.table.chess
    && h'.crowd.departed == h.crowd.departed + {u} && h'.crowd.asked == h.crowd.asked + {u}
  }

  lemma {:induction false} OneRound(h: History, u: User)
    requires Inv(h) && NobodySits(h) && u !in h.crowd.asked
    ensures RoundEffect(h, Next(Next(h, JoinRoom(u, ROLE_PLAYER)), LeaveRoom(u)), u)
  {
    FreshIsPossible(h.lobby, h.crowd, JoinRoom(u, ROLE_PLAYER));
    JoinThenLeave(h.lobby, h.crowd, u);
  }

  lemma {:induction false} JoinThenLeave(l: Lobby, crowd: Crowd, u: User)
    requires Possible(l, JoinRoom(u, ROLE_PLAYER)) && l.table.black.None? && l.table.white.None?
    ensures var e := JoinRoom(u, ROLE_PLAYER);
      var l1, crowd1 := After(l, e), CrowdAfter(l, crowd, e);
      var l2, crowd2 := After(l1, LeaveRoom(u)), CrowdAfter(l1, crowd1, LeaveRoom(u));
      && l2 == l.(users := l.users + [u], table := l2.table) && l2.table.chess == l.table.chess
      && l2.table.black.None? && l2.table.white.None?
      && crowd2.departed == crowd.departed + {u} && crowd2.asked == crowd.asked + {u}
  {
  }

  ghost predicate AllNew(h: History, users: seq<User>) {
    Distinct(users) && forall i :: 0 <= i < |users| ==> users[i] !in h.crowd.asked
  }

  ghost function UserSet(users: seq<User>): set<User> {
    set u | u in users
  }

  /** What `users` rounds starting from `h` lead to. */
  ghost predicate Piled(h: History, h': History, users: seq<User>) {
    && NobodySits(h') && h'.lobby == h.lobby.(users := h.lobby.users + users, table := h'.lobby.table)
    && h'.lobby.table.chess == h.lobby.table.chess
    && h'.crowd.departed == h.crowd.departed + UserSet(users)
    && h'.crowd.asked == h.crowd.asked + UserSet(users)
  }

  lemma {:induction false} OneMoreRound(h: History, h1: History, h2: History, before: seq<User>, u: User)
    requires Piled(h, h1, before) && RoundEffect(h1, h2, u)
    ensures Piled(h, h2, before + [u])
  {
    assert h.lobby.users + before + [u] == h.lobby.users + (before + [u]);
    assert UserSet(before + [u]) == UserSet(before) + {u};
  }

  lemma {:induction false} RunTwoMore(h: History, es: seq<Event>, join: Event, leave: Event)
    requires Inv(h) && FreshFrom(h.crowd.asked, es) && Fresh(RunFrom(h, es).crowd, join) && leave.LeaveRoom?
    ensures FreshFrom(h.crowd.asked, es + [join] + [leave])
    ensures RunFrom(h, es + [join] + [leave]) == Next(Next(RunFrom(h, es), join), leave)
  {
    RunOneMore(h, es, join);
    RunOneMore(h, es + [join], leave);
  }

  lemma {:induction false} RunOneRound(h: History, es: seq<Event>, u: User)
    requires Inv(h) && FreshFrom(h.crowd.asked, es)
    requires NobodySits(RunFrom(h, es)) && u !in RunFrom(h, es).crowd.asked
    ensures FreshFrom(h.crowd.asked, es + [JoinRoom(u, ROLE_PLAYER)] + [LeaveRoom(u)])
    ensures RoundEffect(RunFrom(h, es), RunFrom(h, es + [JoinRoom(u, ROLE_PLAYER)] + [LeaveRoom(u)]), u)
  {
    RunTwoMore(h, es, JoinRoom(u, ROLE_PLAYER), LeaveRoom(u));
    OneRound(RunFrom(h, es), u);
  }

  lemma {:induction false} OneMoreUser(h: History, before: seq<User>, u: User)
    requires Inv(h) && FreshFrom(h.crowd.asked, Rounds(before)) && Piled(h, RunFrom(h, Rounds(before)), before)
    requires u !in h.crowd.asked + UserSet(before)
    ensures FreshFrom(h.crowd.asked, Rounds(before + [u]))
    ensures Piled(h, RunFrom(h, Rounds(before + [u])), before + [u])
  {
    RoundsOfOneMore(before, u);
    RunOneRound(h, Rounds(before), u);
    OneMoreRound(h, RunFrom(h, Rounds(before)), RunFrom(h, Rounds(before + [u])), before, u);
  }

  lemma {:induction false} RoundsOfOneMore(before: seq<User>, u: User)
    ensures Rounds(before + [u]) == Rounds(before) + [JoinRoom(u, ROLE_PLAYER)] + [LeaveRoom(u)]
  {
    assert (before + [u])[..|before|] == before;
  }

  lemma {:induction false} NoRounds(h: History)
    requires Inv(h) && NobodySits(h)
    ensures FreshFrom(h.crowd.asked, Rounds([])) && Piled(h, RunFrom(h, Rounds([])), [])
  {
    NothingPiled(h);
  }

  lemma {:induction false} NothingPiled(h: History)
    requires NobodySits(h)
    ensures Piled(h, h, [])
  {
    assert h.lobby.users + [] == h.lobby.users;
    assert UserSet([]) == {};
  }

  lemma {:induction false} AllButTheLast(h: History, users: seq<User>)
    requires AllNew(h, users) && users != []
    ensures AllNew(h, users[..|users| - 1])
    ensures users[|users| - 1] !in h.crowd.asked + UserSet(users[..|users| - 1])
    ensures users[..|users| - 1] + [users[|users| - 1]] == users
  {
  }

  /** After rounds of any new users, in a room where nobody sits, all of them are listed as
      departed, in order, and nobody sits there. */
  lemma {:induction false} RoundsPileUp(h: History, users: seq<User>)
    requires Inv(h) && NobodySits(h) && AllNew(h, users)
    ensures FreshFrom(h.crowd.asked, Rounds(users))
    ensures Piled(h, RunFrom(h, Rounds(users)), users)
    decreases |users|
  {
    if users == [] {
      NoRounds(h);
    } else {
      AllButTheLast(h, users);
      var last := |users| - 1;
      RoundsPileUp(h, users[..last]);
      OneMoreUser(h, users[..last], users[last]);
    }
  }

  // ---------- two rooms that turn players away ----------

  function LongName(): (name: Name)
    ensures |name| == 255
  {
    seq(255, _ => 0x41)
  }

  function LongNamed(id: nat): User {
    User(id, LongName(), Stats(0, 0, 0, 0, 0))
  }

  function Ghosts(n: nat): (users: seq<User>)
    ensures |users| == n && Distinct(users)
    ensures forall i :: 0 <= i < n ==> users[i] == LongNamed(i)
  {
    seq(n, i requires 0 <= i < n => LongNamed(i))
  }

  lemma {:induction false} GhostNamesSize(n: nat)
    ensures TotalSize(NamesOf(Ghosts(n))) == 256 * n
  {
    SameNamesSize(Ghosts(n));
  }

  lemma {:induction false} SameNamesSize(users: seq<User>)
    requires forall i :: 0 <= i < |users| ==> |users[i].name| == 255
    ensures TotalSize(NamesOf(users)) == 256 * |users|
    decreases |users|
  {
    if users != [] {
      SameNamesSize(users[1..]);
    }
  }

  /** For instance, after `n` rounds of users with 255-byte names, a new user's join as a player
      succeeds exactly while at most 255 are listed and the room's name, its own and theirs leave
      room in the frame. So with 255 listed the count still fits in its byte, but whether the
      snapshot fits in a frame depends on the joiner's name: room name and its own may have 240
      bytes together. */
  lemma {:induction false} LongNamesOverflowTheFrame(name: seq<byte>, maxUsers: int, n: nat, u: User)
    requires |name| <= 255 && u !in Ghosts(n)
    ensures FreshFrom({}, Rounds(Ghosts(n)))
    ensures var l := RunOpened(name, maxUsers, Rounds(Ghosts(n))).lobby;
      var e := JoinRoom(u, ROLE_PLAYER);
      && l.users == Ghosts(n) && Possible(l, e) && Admit(l, e.user, e.role).Some?
      && (SnapshotBytes(After(l, e)).Some? <==> n <= 255)
      && (Succeeds(l, e) <==> n <= 255 && |name| + |u.name| + 256 * n <= 65520)
  {
    GhostsRun(name, maxUsers, n);
    LongNameJoin(RunOpened(name, maxUsers, Rounds(Ghosts(n))).lobby, n, u);
  }

  lemma {:induction false} GhostsRun(name: seq<byte>, maxUsers: int, n: nat)
    ensures FreshFrom({}, Rounds(Ghosts(n)))
    ensures var h := RunOpened(name, maxUsers, Rounds(Ghosts(n)));
      NobodySits(h) && h.lobby.users == Ghosts(n) && h.lobby.name == name && Log(h.lobby.table.chess) == []
  {
    var h := Opened(name, maxUsers);
    RoundsPileUp(h, Ghosts(n));
    assert [] + Ghosts(n) == Ghosts(n);
  }

  lemma {:induction false} LongNameJoin(l: Lobby, n: nat, u: User)
    requires Admissible(l) && l.table.black.None? && l.table.white.None? && l.users == Ghosts(n)
    requires Log(l.table.chess) == [] && |l.name| <= 255 && u !in Ghosts(n)
    ensures var e := JoinRoom(u, ROLE_PLAYER);
      && Possible(l, e) && Admit(l, e.user, e.role).Some?
      && (SnapshotBytes(After(l, e)).Some? <==> n <= 255)
      && (Succeeds(l, e) <==> n <= 255 && |l.name| + |u.name| + 256 * n <= 65520)
  {
    JoinBesideGhostsSucceedsIff(l, u);
    GhostNamesSize(n);
    SolePlayerNames(After(l, JoinRoom(u, ROLE_PLAYER)).table, l.users, u);
    SnapshotFitsIff(After(l, JoinRoom(u, ROLE_PLAYER)));
  }

  // ---------- for ever ----------

  predicate NoneLeaves(es: seq<Event>, gone: set<User>) {
    forall i :: 0 <= i < |es| && es[i].LeaveRoom? ==> es[i].user !in gone
  }

  /** Departed players who do not leave a second time stay departed, and listed. */
  lemma {:induction false} GoneStayListed(h: History, es: seq<Event>, gone: set<User>)
    requires Inv(h) && FreshFrom(h.crowd.asked, es) && gone <= h.crowd.departed && NoneLeaves(es, gone)
    ensures gone <= RunFrom(h, es).crowd.departed
    ensures RunFrom(h, es).lobby.maxUsers == h.lobby.maxUsers && RunFrom(h, es).lobby.name == h.lobby.name
    decreases |es|
  {
    if es != [] {
      var last := |es| - 1;
      assert forall i :: 0 <= i < last ==> es[..last][i] == es[i];
      GoneStayListed(h, es[..last], gone);
      StepKeepsGone(RunFrom(h, es[..last]), es[last], gone);
    }
  }

  lemma {:induction false} StepKeepsGone(h: History, e: Event, gone: set<User>)
    requires Inv(h) && Fresh(h.crowd, e) && gone <= h.crowd.departed && (e.LeaveRoom? ==> e.user !in gone)
    ensures gone <= Next(h, e).crowd.departed
    ensures Next(h, e).lobby.maxUsers == h.lobby.maxUsers && Next(h, e).lobby.name == h.lobby.name
  {
    FreshIsPossible(h.lobby, h.crowd, e);
    CapacityIsFixed(h.lobby, e);
    GoneAfter(h.lobby, h.crowd, e, gone);
  }

  lemma {:induction false} CapacityIsFixed(l: Lobby, e: Event)
    requires Possible(l, e)
    ensures After(l, e).maxUsers == l.maxUsers && After(l, e).name == l.name
  {
  }

  lemma {:induction false} GoneAfter(l: Lobby, crowd: Crowd, e: Event, gone: set<User>)
    requires Possible(l, e) && gone <= crowd.departed && (e.LeaveRoom? ==> e.user !in gone)
    ensures gone <= CrowdAfter(l, crowd, e).departed
  {
  }

  // ---------- what a pile does to a room ----------

  /** Different users, each listed without a seat. */
  predicate Linger(l: Lobby, gone: seq<User>) {
    Distinct(gone) && forall g :: g in gone ==> g in l.users && !IsPlayer(l.table, g)
  }

  lemma {:induction false} NamesSizeSplits(a: seq<User>, b: seq<User>)
    ensures TotalSize(NamesOf(a + b)) == TotalSize(NamesOf(a)) + TotalSize(NamesOf(b))
    decreases |a|
  {
    if a == [] {
      assert a + b == b;
    } else {
      assert (a + b)[1..] == a[1..] + b;
      NamesSizeSplits(a[1..], b);
    }
  }

  lemma {:induction false} WithoutOneSize(gone: seq<User>, i: nat)
    requires i < |gone|
    ensures TotalSize(NamesOf(gone)) == 1 + |gone[i].name| + TotalSize(NamesOf(gone[..i] + gone[i + 1..]))
  {
    assert gone == gone[..i] + gone[i..];
    NamesSizeSplits(gone[..i], gone[i..]);
    NamesSizeSplits(gone[..i], gone[i + 1..]);
    assert gone[i..][1..] == gone[i + 1..];
  }

  lemma {:induction false} WithoutOne(gone: seq<User>, i: nat)
    requires Distinct(gone) && i < |gone|
    ensures var rest := gone[..i] + gone[i + 1..];
      Distinct(rest) && |rest| == |gone| - 1 && forall g :: g in rest ==> g in gone && g != gone[i]
  {
  }

  lemma {:induction false} HasMember(gone: seq<User>)
    ensures gone == [] || exists g :: g in gone
  {
    if gone != [] {
      assert gone[0] in gone;
    }
  }

  /** The snapshot names everyone listed who is no player. */
  lemma {:induction false} NamesCoverNonPlayers(t: Table, users: seq<User>, gone: seq<User>)
    requires Distinct(gone) && forall g :: g in gone ==> g in users && !IsPlayer(t, g)
    ensures |OnlookerNames(t, users)| >= |gone|
    ensures TotalSize(OnlookerNames(t, users)) >= TotalSize(NamesOf(gone))
    decreases |users|
  {
    if users == [] {
      HasMember(gone);
    } else {
      var first := users[0];
      if i :| 0 <= i < |gone| && gone[i] == first {
        WithoutOne(gone, i);
        WithoutOneSize(gone, i);
        NamesCoverNonPlayers(t, users[1..], gone[..i] + gone[i + 1..]);
        assert OnlookerNames(t, users) == [first.name] + OnlookerNames(t, users[1..]);
      } else {
        NamesCoverNonPlayers(t, users[1..], gone);
        MoreNames(t, users);
      }
    }
  }

  lemma {:induction false} MoreNames(t: Table, users: seq<User>)
    requires users != []
    ensures |OnlookerNames(t, users)| >= |OnlookerNames(t, users[1..])|
    ensures TotalSize(OnlookerNames(t, users)) >= TotalSize(OnlookerNames(t, users[1..]))
  {
    var names := OnlookerNames(t, users[1..]);
    assert [] + names == names;
    assert ([users[0].name] + names)[1..] == names;
  }

  /** The bytes a snapshot has at least, with these users listed and no players. */
  function LeastSize(l: Lobby, gone: seq<User>): nat {
    11 + |l.name| + TotalSize(NamesOf(gone))
  }

  /** With more than 255 of them, or with names too long for a frame, no join succeeds, by
      anybody in any role; and with as many of them as there are places for onlookers, no
      onlooker is even admitted. */
  lemma {:induction false} LingerersCloseTheRoom(h: History, gone: seq<User>, u: User, role: byte)
    requires Inv(h) && Linger(h.lobby, gone) && u !in h.crowd.asked
    ensures Possible(h.lobby, JoinRoom(u, role))
    ensures |gone| >= h.lobby.maxUsers - 2 ==> Admit(h.lobby, u, ROLE_ONLOOKER).None?
    ensures |gone| > 255 || LeastSize(h.lobby, gone) > Framing.MAX_PAYLOAD ==> !Succeeds(h.lobby, JoinRoom(u, role))
  {
    FreshIsPossible(h.lobby, h.crowd, JoinRoom(u, role));
    OnlookerAdmittedIff(h, u);
    LingerersCount(h, gone);
    JoinKeepsLingerers(h, gone, u, role);
    LingerersFillTheSnapshot(After(h.lobby, JoinRoom(u, role)), gone);
    JoinKeepsName(h.lobby, u, role);
  }

  lemma {:induction false} JoinKeepsName(l: Lobby, u: User, role: byte)
    requires Possible(l, JoinRoom(u, role))
    ensures After(l, JoinRoom(u, role)).name == l.name
  {
  }

  lemma {:induction false} LingerersFillTheSnapshot(l: Lobby, gone: seq<User>)
    requires Admissible(l) && Linger(l, gone)
    ensures |gone| > 255 || LeastSize(l, gone) > Framing.MAX_PAYLOAD ==> SendableSnapshot(l).None?
  {
    NamesCoverNonPlayers(l.table, l.users, gone);
    SnapshotFitsIff(l);
  }

  /** In every run an onlooker is admitted exactly while the admitted onlookers and the departed
      players together are fewer than the places. */
  lemma {:induction false} OnlookerAdmittedIff(h: History, u: User)
    requires Inv(h) && u !in h.crowd.asked
    ensures Possible(h.lobby, JoinRoom(u, ROLE_ONLOOKER))
    ensures Admit(h.lobby, u, ROLE_ONLOOKER).Some? <==>
      |h.crowd.onlookers| + |h.crowd.departed| < h.lobby.maxUsers - 2
  {
    FreshIsPossible(h.lobby, h.crowd, JoinRoom(u, ROLE_ONLOOKER));
    RosterCount(h.lobby.users, Seated(h.lobby.table), h.crowd, h.lobby.maxUsers - 2);
  }

  lemma {:induction false} LingerersCount(h: History, gone: seq<User>)
    requires Inv(h) && Linger(h.lobby, gone)
    ensures |gone| <= |h.crowd.onlookers| + |h.crowd.departed|
  {
    DistinctCount(gone);
    LingerersAreUnseated(h, gone);
    SubsetIsNoLarger(UserSet(gone), h.crowd.onlookers + h.crowd.departed);
  }

  lemma {:induction false} LingerersAreUnseated(h: History, gone: seq<User>)
    requires Inv(h) && Linger(h.lobby, gone)
    ensures UserSet(gone) <= h.crowd.onlookers + h.crowd.departed
    ensures UserSet(gone) <= h.crowd.asked
  {
    forall g | g in gone
      ensures g in h.crowd.onlookers + h.crowd.departed
    {
      SeatedAreThePlayers(h.lobby.table, g);
    }
  }

  lemma {:induction false} SubsetIsNoLarger(a: set<User>, b: set<User>)
    requires a <= b
    ensures |a| <= |b|
  {
    assert b == a + (b - a);
    assert |a + (b - a)| == |a| + |b - a|;
  }

  lemma {:induction false} JoinKeepsLingerers(h: History, gone: seq<User>, u: User, role: byte)
    requires Inv(h) && Linger(h.lobby, gone) && u !in h.crowd.asked && Possible(h.lobby, JoinRoom(u, role))
    ensures Linger(After(h.lobby, JoinRoom(u, role)), gone)
  {
    LingerersAreUnseated(h, gone);
    forall g | g in gone
      ensures g in After(h.lobby, JoinRoom(u, role)).users && !IsPlayer(After(h.lobby, JoinRoom(u, role)).table, g)
    {
      assert g in UserSet(gone);
      OthersMoveNobody(h.lobby, JoinRoom(u, role), g);
    }
  }

  /** Whatever happens in a room after the departed players are gone, short of one of them leaving
      again, the room stays closed as `LingerersCloseTheRoom` says. */
  lemma {:induction false} PileUpClosesTheRoom(h: History, es: seq<Event>, gone: seq<User>, u: User, role: byte)
    requires Inv(h) && FreshFrom(h.crowd.asked, es) && Distinct(gone)
    requires UserSet(gone) <= h.crowd.departed && NoneLeaves(es, UserSet(gone))
    requires u !in RunFrom(h, es).crowd.asked
    ensures var l := RunFrom(h, es).lobby;
      && Linger(l, gone) && Possible(l, JoinRoom(u, role))
      && (|gone| >= h.lobby.maxUsers - 2 ==> Admit(l, u, ROLE_ONLOOKER).None?)
      && (|gone| > 255 || LeastSize(h.lobby, gone) > Framing.MAX_PAYLOAD ==> !Succeeds(l, JoinRoom(u, role)))
  {
    GoneStayListed(h, es, UserSet(gone));
    DepartedLinger(RunFrom(h, es), gone);
    LingerersCloseTheRoom(RunFrom(h, es), gone, u, role);
  }

  lemma {:induction false} DepartedLinger(h: History, gone: seq<User>)
    requires Inv(h) && Distinct(gone) && UserSet(gone) <= h.crowd.departed
    ensures Linger(h.lobby, gone)
  {
    forall g | g in gone
      ensures g in h.lobby.users && !IsPlayer(h.lobby.table, g)
    {
      assert g in UserSet(gone);
      SeatedAreThePlayers(h.lobby.table, g);
    }
  }
}
