/** The game engine as it runs: a board array, a record array and a cursor updated in place,
    each operation tied to its meaning in `Chess`. */
module Engine {
  import opened Bytes
  import opened Chess
  import opened Rules

  /** The direction tables of the scan, in the order the loop visits them. */
  const ROW_STEPS := [0, 1, 1, 1]
  const COL_STEPS := [1, 1, 0, -1]
  const AXES := [Horizontal, Diagonal, Vertical, AntiDiagonal]

  class Game {
    const board: array2<byte>
    const record: array<byte>
    var cursor: int

    ghost predicate Allocated()
      reads this
    {
      board.Length0 == board.Length1 == SIZE && record.Length == CELLS && 0 <= cursor <= CELLS
    }

    ghost function BoardView(): Grid
      requires board.Length0 == board.Length1 == SIZE
      reads board
    {
      seq(SIZE, r requires 0 <= r < SIZE reads board =>
        seq(SIZE, c requires 0 <= c < SIZE reads board => board[r, c]))
    }

    ghost function View(): State
      requires Allocated()
      reads this, board, record
    {
      State(BoardView(), record[..], cursor)
    }

    /** What every operation keeps. */
    ghost predicate Valid()
      reads this, board, record
    {
      Allocated() && Logged(View())
    }

    constructor ()
      ensures Valid() && fresh(board) && fresh(record)
      ensures View().board == Blank() && View().cursor == 0
    {
      board := new byte[SIZE, SIZE]((_, _) => 0);
      record := new byte[CELLS](_ => 0);
      cursor := 0;
      new;
      Init();
    }

    method Init()
      requires Allocated()
      modifies this`cursor, board
      ensures Valid() && View() == Restart(old(View()))
    {
      cursor := 0;
      for i := 0 to SIZE
        modifies board
        invariant forall r, c :: 0 <= r < i && 0 <= c < SIZE ==> board[r, c] == SPACE
      {
        for j := 0 to SIZE
          modifies board
          invariant forall r, c :: 0 <= r < i && 0 <= c < SIZE ==> board[r, c] == SPACE
          invariant forall c :: 0 <= c < j ==> board[i, c] == SPACE
        {
          board[i, j] := SPACE;
        }
      }
      SameCellsSameGrid(BoardView(), Blank());
    }

    method WhoseTurn() returns (color: byte)
      requires Allocated()
      ensures color == Turn(View())
    {
      color := cursor % 2;
    }

    method Stone(move: int, coor: byte) returns (ok: bool)
      requires Valid()
      modifies this`cursor, board, record
      ensures Valid() && View() == PlaceStone(old(View()), move, coor)
      ensures ok <==> Accepts(old(View()), move, coor)
    {
      if move != cursor {
        return false;
      }
      var p := ParseCoor(coor);
      if !OnBoard(p) {
        return false;
      }
      if board[p.row, p.col] != SPACE {
        return false;
      }
      EmptyCellMeansRoomInLog(View(), coor);
      record[cursor] := coor;
      var turn := WhoseTurn();
      board[p.row, p.col] := turn;
      cursor := cursor + 1;
      SameCellsSameGrid(BoardView(), Put(old(BoardView()), p, turn));
      return true;
    }

    /** How far the cells next to `p` in one direction have its colour, at most four of them. */
    method Reach(p: Cell, dir: nat, sign: int) returns (n: int)
      requires Valid() && OnBoard(p) && dir < 4 && (sign == 1 || sign == -1)
      ensures 0 <= n <= 4
      ensures forall k :: 0 <= k <= n ==> Shows(BoardView(), Walk(p, AXES[dir], sign * k), At(BoardView(), p))
      ensures n == 4 || !Shows(BoardView(), Walk(p, AXES[dir], sign * (n + 1)), At(BoardView(), p))
    {
      n := 0;
      while n < 4
        invariant 0 <= n <= 4
        invariant forall k :: 0 <= k <= n ==> Shows(BoardView(), Walk(p, AXES[dir], sign * k), At(BoardView(), p))
      {
        var j := sign * (n + 1);
        var q := Cell(p.row + j * ROW_STEPS[dir], p.col + j * COL_STEPS[dir]);
        assert q == Walk(p, AXES[dir], j);
        if !OnBoard(q) || board[p.row, p.col] != board[q.row, q.col] {
          break;
        }
        n := n + 1;
      }
    }

    /** The cells of one colour in a row through `p`, as far as they are looked at. */
    method Count(p: Cell, dir: nat) returns (count: int)
      requires Valid() && OnBoard(p) && dir < 4 && At(BoardView(), p) != SPACE
      ensures count >= 5 <==> FiveAlong(BoardView(), p, AXES[dir])
    {
      ghost var g := BoardView();
      var fore := Reach(p, dir, 1);
      var back := Reach(p, dir, -1);
      forall k | -back <= k <= fore
        ensures Shows(g, Walk(p, AXES[dir], k), At(g, p))
      {
        assert if k >= 0 then 1 * k == k else -1 * -k == k;
      }
      RunsDecideFive(g, p, AXES[dir], fore, back);
      return 1 + fore + back;
    }

    method DidYouWin() returns (win: bool)
      requires Valid()
      ensures win <==> Wins(View())
      ensures win <==> WonByLine(View())
    {
      WinsIsLine(View());
      if cursor <= 0 {
        return false;
      }
      var p := ParseCoor(record[cursor - 1]);
      ghost var g := BoardView();
      assert p == ParseCoor(Log(View())[cursor - 1]) && At(g, p) == (cursor - 1) % 2;
      var i := 0;
      while i < 4
        invariant 0 <= i <= 4
        invariant forall k :: 0 <= k < i ==> !FiveAlong(g, p, AXES[k])
      {
        var count := Count(p, i);
        if count >= 5 {
          return true;
        }
        i := i + 1;
      }
      forall axis: Axis
        ensures !FiveAlong(g, p, axis)
      {
        assert axis == AXES[0] || axis == AXES[1] || axis == AXES[2] || axis == AXES[3];
      }
      return false;
    }

    method Regret(color: byte) returns (ok: bool)
      requires Valid()
      modifies this`cursor
      ensures Valid() && View() == TakeBack(old(View()), color)
      ensures ok <==> RegretDepth(old(View()), color) <= old(cursor)
    {
      var turn := WhoseTurn();
      if color == turn {
        if cursor - 1 < 0 {
          return false;
        }
        cursor := cursor - 1;
      } else {
        if cursor - 2 < 0 {
          return false;
        }
        cursor := cursor - 2;
      }
      assert View() == TakeBack(old(View()), color);
      return true;
    }

    method GetRecords() returns (log: seq<byte>)
      requires Valid()
      ensures log == Log(View())
    {
      log := record[..cursor];
    }
  }
}
