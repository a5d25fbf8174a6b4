/** A table with two seats, three pending requests and a board, as values: what each operation
    of the game package's room does to it. */
module Tables {
  import opened Bytes
  import opened Chess

  /** Usernames reach the server through a one-byte length. */
  type Name = s: seq<byte> | |s| <= 255 witness []

  /** A user object; the server makes a new one, with a new identity, for every join request. */
  datatype User = User(id: nat, name: Name, stats: Stats)

  /** What the database held of the user when it joined; nothing changes it. */
  datatype Stats = Stats(wins: Word, ties: Word, losses: Word, matches: Word, duration: LongWord)

  datatype Table = Table(
    black: Option<User>, white: Option<User>,
    regretColor: byte, tieColor: byte, readyColor: byte,
    isPlaying: bool, chess: State)

  function Seat(t: Table, color: byte): Option<User> {
    if color == BLACK then t.black else if color == WHITE then t.white else None
  }

  /** The colour whose seat the user holds; black is looked at first. */
  function ColorOf(t: Table, u: User): (color: byte)
    ensures color == SPACE <==> !IsPlayer(t, u)
    ensures color != SPACE ==> (color == BLACK || color == WHITE) && Seat(t, color) == Some(u)
  {
    if t.black == Some(u) then BLACK else if t.white == Some(u) then WHITE else SPACE
  }

  predicate IsPlayer(t: Table, u: User) {
    t.black == Some(u) || t.white == Some(u)
  }

  function Other(color: byte): byte {
    if color == BLACK then WHITE else BLACK
  }

  // ---------- what every operation keeps ----------

  /** A pending request is nobody's, or that of a seated player. */
  predicate NamesFilledSeat(t: Table, flag: byte) {
    flag == SPACE || ((flag == BLACK || flag == WHITE) && Seat(t, flag).Some?)
  }

  predicate Sound(t: Table) {
    && (t.isPlaying ==> t.black.Some? && t.white.Some?)
    && (t.black.Some? && t.white.Some? ==> t.black != t.white)
    && NamesFilledSeat(t, t.readyColor)
    && NamesFilledSeat(t, t.regretColor)
    && NamesFilledSeat(t, t.tieColor)
    && Logged(t.chess)
  }

  // ---------- operations ----------

  function NewTable(): (t: Table)
    ensures Sound(t)
  {
    Table(None, None, SPACE, SPACE, SPACE, false, Chess.Start())
  }

  /** A free seat, whoever asks: the seats stay two different users' exactly when the joiner has
      none yet. */
  function Join(t: Table, u: User): (r: Option<Table>)
    requires Sound(t)
    ensures r.Some? <==> t.black.None? || t.white.None?
    ensures r.Some? ==> IsPlayer(r.value, u) && !t.isPlaying && (Sound(r.value) <==> !IsPlayer(t, u))
  {
    if t.black.None? then Some(t.(black := Some(u)))
    else if t.white.None? then Some(t.(white := Some(u)))
    else None
  }

  function Cleared(flag: byte, color: byte): byte {
    if flag == color then SPACE else flag
  }

  /** A player's seat is freed, its requests are dropped and the game is over. */
  function Leave(t: Table, u: User): (r: Table)
    requires Sound(t)
    ensures Sound(r) && !IsPlayer(r, u)
  {
    var color := ColorOf(t, u);
    if color == SPACE then t
    else Table(
      if color == BLACK then None else t.black,
      if color == WHITE then None else t.white,
      Cleared(t.regretColor, color), Cleared(t.tieColor, color), Cleared(t.readyColor, color),
      false, t.chess)
  }

  /** A player's ready completes the pair when the other colour is waiting. */
  predicate Completes(t: Table, u: User) {
    IsPlayer(t, u) && t.readyColor == Other(ColorOf(t, u))
  }

  function Ready(t: Table, u: User): (r: Table)
    requires Sound(t)
    ensures Sound(r)
    ensures Completes(t, u) ==> r.black.Some? && r.white.Some?
  {
    if !IsPlayer(t, u) then t
    else if Completes(t, u) then t.(readyColor := SPACE)
    else t.(readyColor := ColorOf(t, u))
  }

  /** Starting reads both players' names, so both seats must be filled. */
  function Start(t: Table): (r: Table)
    requires Sound(t) && t.black.Some? && t.white.Some?
    ensures Sound(r)
  {
    t.(chess := Restart(t.chess), isPlaying := true)
  }

  function AskRegret(t: Table, u: User): (r: Table)
    requires Sound(t)
    ensures Sound(r)
  {
    if t.regretColor == SPACE && IsPlayer(t, u) then t.(regretColor := ColorOf(t, u)) else t
  }

  function AskTie(t: Table, u: User): (r: Table)
    requires Sound(t)
    ensures Sound(r)
  {
    if t.tieColor == SPACE && IsPlayer(t, u) then t.(tieColor := ColorOf(t, u)) else t
  }

  predicate MayReplyRegret(t: Table, u: User) {
    (t.white == Some(u) && t.regretColor == BLACK) || (t.black == Some(u) && t.regretColor == WHITE)
  }

  /** The opponent's reply takes the moves back, whatever the reply says. */
  function ReplyRegret(t: Table, u: User): (r: Table)
    requires Sound(t)
    ensures Sound(r)
  {
    if MayReplyRegret(t, u) then t.(regretColor := SPACE, chess := TakeBack(t.chess, t.regretColor)) else t
  }

  function PlayStone(t: Table, move: int, coor: byte): (r: Table)
    requires Sound(t)
    ensures Sound(r)
  {
    t.(chess := PlaceStone(t.chess, move, coor))
  }

  function Seated(t: Table): set<User> {
    (if t.black.Some? then {t.black.value} else {}) + (if t.white.Some? then {t.white.value} else {})
  }

  lemma {:induction false} SeatedCount(t: Table)
    requires Sound(t)
    ensures |Seated(t)| == (if t.black.Some? then 1 else 0) + (if t.white.Some? then 1 else 0)
  {
    if t.black.Some? && t.white.Some? {
      assert Seated(t) == {t.black.value, t.white.value};
    }
  }
}
