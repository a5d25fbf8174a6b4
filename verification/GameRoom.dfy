/** The room of the game package as the object whose methods update it, each tied to its meaning
    in `Tables`. */
module GameRoom {
  import opened Bytes
  import opened Chess
  import opened Tables
  import Engine

  class Room {
    var black: Option<User>
    var white: Option<User>
    var regretColor: byte
    var tieColor: byte
    var readyColor: byte
    var isPlaying: bool
    const chess: Engine.Game

    ghost predicate Valid()
      reads this, chess, chess.board, chess.record
    {
      chess.Valid() && Sound(View())
    }

    ghost function View(): Table
      requires chess.Valid()
      reads this, chess, chess.board, chess.record
    {
      Table(black, white, regretColor, tieColor, readyColor, isPlaying, chess.View())
    }

    constructor ()
      ensures Valid() && fresh(chess) && fresh(chess.board) && fresh(chess.record)
      ensures View() == NewTable().(chess := View().chess)
      ensures View().chess.board == Blank() && View().chess.cursor == 0
    {
      black, white := None, None;
      regretColor, tieColor, readyColor := SPACE, SPACE, SPACE;
      isPlaying := false;
      chess := new Engine.Game();
    }

    method Start()
      requires Valid() && black.Some? && white.Some?
      modifies this`isPlaying, chess, chess.board
      ensures Valid() && View() == Tables.Start(old(View()))
    {
      chess.Init();
      isPlaying := true;
    }

    method Join(u: User) returns (ok: bool)
      requires Valid()
      modifies this`black, this`white
      ensures chess.Valid()
      ensures Valid() <==> !ok || !old(IsPlayer(View(), u))
      ensures match Tables.Join(old(View()), u)
        case None => !ok && View() == old(View())
        case Some(t) => ok && View() == t
    {
      if black.None? {
        black := Some(u);
      } else if white.None? {
        white := Some(u);
      } else {
        return false;
      }
      return true;
    }

    method Leave(u: User) returns (wasPlayer: bool)
      requires Valid()
      modifies this
      ensures Valid() && View() == Tables.Leave(old(View()), u)
      ensures wasPlayer == old(IsPlayer(View(), u))
    {
      var color := SPACE;
      if black == Some(u) {
        black, color := None, BLACK;
      } else if white == Some(u) {
        white, color := None, WHITE;
      } else {
        return false;
      }
      if regretColor == color { regretColor := SPACE; }
      if tieColor == color { tieColor := SPACE; }
      if readyColor == color { readyColor := SPACE; }
      isPlaying := false;
      return true;
    }

    /** Whenever `start` is returned, both seats are filled, so `Start` may be called. */
    method Ready(u: User) returns (color: byte, start: bool, ok: bool)
      requires Valid()
      modifies this`readyColor
      ensures Valid() && View() == Tables.Ready(old(View()), u)
      ensures color == old(ColorOf(View(), u)) && ok == (color != SPACE)
      ensures start == old(Completes(View(), u))
      ensures start ==> black.Some? && white.Some?
    {
      if black == Some(u) {
        if readyColor == WHITE {
          readyColor := SPACE;
          return BLACK, true, true;
        }
        readyColor := BLACK;
        return BLACK, false, true;
      }
      if white == Some(u) {
        if readyColor == BLACK {
          readyColor := SPACE;
          return WHITE, true, true;
        }
        readyColor := WHITE;
        return WHITE, false, true;
      }
      return SPACE, false, false;
    }

    /** Records the request and then reports an error all the same. */
    method Regret(u: User) returns (ok: bool)
      requires Valid()
      modifies this`regretColor
      ensures Valid() && View() == AskRegret(old(View()), u) && !ok
    {
      if regretColor != SPACE {
        return false;
      }
      var color := PlayerColor(u);
      if color != SPACE {
        regretColor := color;
      }
      return false;
    }

    method ReplyRegret(u: User, agree: bool) returns (ok: bool)
      requires Valid()
      modifies this`regretColor, chess
      ensures Valid() && View() == Tables.ReplyRegret(old(View()), u)
      ensures ok <==> old(MayReplyRegret(View(), u) && RegretDepth(View().chess, regretColor) <= View().chess.cursor)
    {
      if white == Some(u) && regretColor == BLACK {
        regretColor := SPACE;
        ok := chess.Regret(BLACK);
        return;
      }
      if black == Some(u) && regretColor == WHITE {
        regretColor := SPACE;
        ok := chess.Regret(WHITE);
        return;
      }
      return false;
    }

    method Tie(u: User) returns (ok: bool)
      requires Valid()
      modifies this`tieColor
      ensures Valid() && View() == AskTie(old(View()), u) && !ok
    {
      if tieColor != SPACE {
        return false;
      }
      var color := PlayerColor(u);
      if color != SPACE {
        tieColor := color;
      }
      return false;
    }

    method Opponent(u: User) returns (opponent: Option<User>, ok: bool)
      requires Valid()
      ensures ok == IsPlayer(View(), u)
      ensures ok ==> opponent == Seat(View(), Other(ColorOf(View(), u))) && opponent != Some(u)
    {
      if black == Some(u) {
        return white, true;
      }
      if white == Some(u) {
        return black, true;
      }
      return None, false;
    }

    method PlayerCount() returns (n: nat)
      requires Valid()
      ensures n == |Seated(View())|
    {
      n := 0;
      if black.Some? { n := n + 1; }
      if white.Some? { n := n + 1; }
      SeatedCount(View());
    }

    method PlayerColor(u: User) returns (color: byte)
      requires Valid()
      ensures color == ColorOf(View(), u)
    {
      if black == Some(u) {
        return BLACK;
      }
      if white == Some(u) {
        return WHITE;
      }
      return SPACE;
    }
  }
}
