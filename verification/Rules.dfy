/** The rules of the board spelled out in rows, columns and bytes, and the proof that cells,
    windows and the engine's scan mean nothing else. */
module Rules {
  import opened Bytes
  import opened Chess

  predicate Has(g: Grid, r: int, c: int, color: byte) {
    0 <= r < 15 && 0 <= c < 15 && g[r][c] == color
  }

  /** Five adjacent cells to the right of, or including, row `r`, column `c`. */
  predicate InRow(g: Grid, r: int, c: int, color: byte) {
    && Has(g, r, c, color) && Has(g, r, c + 1, color) && Has(g, r, c + 2, color) && Has(g, r, c + 3, color)
    && Has(g, r, c + 4, color)
  }

  predicate InColumn(g: Grid, r: int, c: int, color: byte) {
    && Has(g, r, c, color) && Has(g, r + 1, c, color) && Has(g, r + 2, c, color) && Has(g, r + 3, c, color)
    && Has(g, r + 4, c, color)
  }

  predicate Falling(g: Grid, r: int, c: int, color: byte) {
    && Has(g, r, c, color) && Has(g, r + 1, c + 1, color) && Has(g, r + 2, c + 2, color) && Has(g, r + 3, c + 3, color)
    && Has(g, r + 4, c + 4, color)
  }

  predicate Rising(g: Grid, r: int, c: int, color: byte) {
    && Has(g, r, c, color) && Has(g, r + 1, c - 1, color) && Has(g, r + 2, c - 2, color) && Has(g, r + 3, c - 3, color)
    && Has(g, r + 4, c - 4, color)
  }

  predicate Line(g: Grid, r: int, c: int, color: byte) {
    InRow(g, r, c, color) || InColumn(g, r, c, color) || Falling(g, r, c, color) || Rising(g, r, c, color)
  }

  /** Some player has five adjacent stones in a row, a column or a diagonal. */
  ghost predicate SomeLine(g: Grid) {
    exists r, c, color :: color != 0xFF && Line(g, r, c, color)
  }

  /** A line, its topmost (or leftmost) cell at row `r`, column `c`, that covers the cell at row
      `y`, column `x`. */
  predicate Covers(g: Grid, r: int, c: int, color: byte, y: int, x: int) {
    || (InRow(g, r, c, color) && y == r && c <= x <= c + 4)
    || (InColumn(g, r, c, color) && x == c && r <= y <= r + 4)
    || (Falling(g, r, c, color) && 0 <= y - r <= 4 && x - c == y - r)
    || (Rising(g, r, c, color) && 0 <= y - r <= 4 && c - x == y - r)
  }

  ghost predicate LineThrough(g: Grid, y: int, x: int) {
    exists r, c, color :: color != 0xFF && Covers(g, r, c, color, y, x)
  }

  /** The windows of each axis are the lines of one direction. */
  lemma {:induction false} WindowIsLine(g: Grid, r: int, c: int, axis: Axis)
    ensures IsFive(g, Window(Cell(r, c), axis)) <==>
      && 0 <= r < 15 && 0 <= c < 15 && g[r][c] != 0xFF
      && match axis
         case Horizontal => InRow(g, r, c, g[r][c])
         case Vertical => InColumn(g, r, c, g[r][c])
         case Diagonal => Falling(g, r, c, g[r][c])
         case AntiDiagonal => Rising(g, r, c, g[r][c])
  {
    if 0 <= r < 15 && 0 <= c < 15 {
      FiveCells(g, Window(Cell(r, c), axis));
      CellsOfWindow(g, r, c, axis, g[r][c]);
    }
  }

  lemma {:induction false} CellsOfWindow(g: Grid, r: int, c: int, axis: Axis, color: byte)
    ensures var p := Cell(r, c);
      (Shows(g, Walk(p, axis, 0), color) && Shows(g, Walk(p, axis, 1), color) && Shows(g, Walk(p, axis, 2), color)
       && Shows(g, Walk(p, axis, 3), color) && Shows(g, Walk(p, axis, 4), color))
      <==>
      match axis
      case Horizontal => InRow(g, r, c, color)
      case Vertical => InColumn(g, r, c, color)
      case Diagonal => Falling(g, r, c, color)
      case AntiDiagonal => Rising(g, r, c, color)
  {
    forall k: int
      ensures Shows(g, Walk(Cell(r, c), axis, k), color) <==>
        match axis
        case Horizontal => Has(g, r, c + k, color)
        case Vertical => Has(g, r + k, c, color)
        case Diagonal => Has(g, r + k, c + k, color)
        case AntiDiagonal => Has(g, r + k, c - k, color)
    {
      StepOfWindow(g, r, c, axis, k, color);
    }
  }

  /** The cell `k` steps on: along the row, down the column, or down and to one side. */
  lemma {:induction false} StepOfWindow(g: Grid, r: int, c: int, axis: Axis, k: int, color: byte)
    ensures Shows(g, Walk(Cell(r, c), axis, k), color) <==>
      match axis
      case Horizontal => Has(g, r, c + k, color)
      case Vertical => Has(g, r + k, c, color)
      case Diagonal => Has(g, r + k, c + k, color)
      case AntiDiagonal => Has(g, r + k, c - k, color)
  {
  }

  /** The five cells of a window, one by one. */
  lemma {:induction false} FiveCells(g: Grid, w: Window)
    requires OnBoard(w.start)
    ensures IsFive(g, w) <==>
      && At(g, w.start) != SPACE
      && Shows(g, Walk(w.start, w.axis, 0), At(g, w.start)) && Shows(g, Walk(w.start, w.axis, 1), At(g, w.start))
      && Shows(g, Walk(w.start, w.axis, 2), At(g, w.start)) && Shows(g, Walk(w.start, w.axis, 3), At(g, w.start))
      && Shows(g, Walk(w.start, w.axis, 4), At(g, w.start))
  {
  }

  /** There is a five anywhere exactly when there are five adjacent stones of one colour. */
  lemma {:induction false} FivesAreLines(g: Grid)
    ensures Fives(g) != {} <==> SomeLine(g)
  {
    if w :| w in Fives(g) {
      FivesContains(g, w);
      WindowIsLine(g, w.start.row, w.start.col, w.axis);
      assert Line(g, w.start.row, w.start.col, g[w.start.row][w.start.col]);
    }
    if r, c, color :| color != 0xFF && Line(g, r, c, color) {
      LineIsWindow(g, r, c, color);
    }
  }

  lemma {:induction false} LineIsWindow(g: Grid, r: int, c: int, color: byte)
    requires color != 0xFF && Line(g, r, c, color)
    ensures Fives(g) != {}
  {
    var axis := if InRow(g, r, c, color) then Horizontal else if InColumn(g, r, c, color) then Vertical
                else if Falling(g, r, c, color) then Diagonal else AntiDiagonal;
    WindowIsLine(g, r, c, axis);
    FivesContains(g, Window(Cell(r, c), axis));
    assert Window(Cell(r, c), axis) in Fives(g);
  }

  /** A five through a cell is a line that covers it. */
  lemma {:induction false} FiveThroughIsLine(g: Grid, y: int, x: int)
    ensures FiveThrough(g, Cell(y, x)) <==> LineThrough(g, y, x)
  {
    if axis: Axis, k :| -4 <= k <= 0 && IsFive(g, Window(Walk(Cell(y, x), axis, k), axis)) {
      var start := Walk(Cell(y, x), axis, k);
      WindowIsLine(g, start.row, start.col, axis);
      assert Covers(g, start.row, start.col, g[start.row][start.col], y, x);
    }
    if r, c, color :| color != 0xFF && Covers(g, r, c, color, y, x) {
      CoveringIsFive(g, r, c, color, y, x);
    }
  }

  lemma {:induction false} CoveringIsFive(g: Grid, r: int, c: int, color: byte, y: int, x: int)
    requires color != 0xFF && Covers(g, r, c, color, y, x)
    ensures FiveThrough(g, Cell(y, x))
  {
    if InRow(g, r, c, color) && y == r && c <= x <= c + 4 {
      FiveFrom(g, r, c, Horizontal, Cell(y, x), c - x);
    } else if InColumn(g, r, c, color) && x == c && r <= y <= r + 4 {
      FiveFrom(g, r, c, Vertical, Cell(y, x), r - y);
    } else if Falling(g, r, c, color) && 0 <= y - r <= 4 && x - c == y - r {
      FiveFrom(g, r, c, Diagonal, Cell(y, x), r - y);
    } else {
      FiveFrom(g, r, c, AntiDiagonal, Cell(y, x), r - y);
    }
  }

  lemma {:induction false} FiveFrom(g: Grid, r: int, c: int, axis: Axis, p: Cell, k: int)
    requires 0 <= r < 15 && 0 <= c < 15 && g[r][c] != 0xFF && -4 <= k <= 0 && Walk(p, axis, k) == Cell(r, c)
    requires match axis
      case Horizontal => InRow(g, r, c, g[r][c])
      case Vertical => InColumn(g, r, c, g[r][c])
      case Diagonal => Falling(g, r, c, g[r][c])
      case AntiDiagonal => Rising(g, r, c, g[r][c])
    ensures FiveThrough(g, p)
  {
    WindowIsLine(g, r, c, axis);
    assert IsFive(g, Window(Walk(p, axis, k), axis));
    assert FiveAlong(g, p, axis);
  }

  /** The last stone is on a line of five. */
  ghost predicate WonByLine(s: State)
    requires Shaped(s)
  {
    s.cursor > 0 && LineThrough(s.board, s.record[s.cursor - 1] % 16, s.record[s.cursor - 1] / 16)
  }

  /** What the scan reports: a line of five through the last logged stone, whose row is the low
      nibble of its byte and whose column the high one. */
  lemma {:induction false} WinsIsLine(s: State)
    requires Logged(s)
    ensures Wins(s) <==> WonByLine(s)
  {
    if s.cursor > 0 {
      var coor := s.record[s.cursor - 1];
      assert Log(s)[s.cursor - 1] == coor;
      FiveThroughIsLine(s.board, coor % 16, coor / 16);
    }
  }

  /** In every run without a regret in which no earlier stone won, a win is reported exactly when
      some player has five adjacent stones anywhere. */
  lemma {:induction false} FirstWinIsFirstLine(ops: seq<Op>)
    requires forall i :: 0 <= i < |ops| ==> !ops[i].Regret?
    requires forall k :: 0 <= k < |ops| ==> !WonByLine(Run(ops[..k]))
    ensures WonByLine(Run(ops)) <==> SomeLine(Run(ops).board)
  {
    forall k | 0 <= k < |ops|
      ensures !Wins(Run(ops[..k]))
    {
      WinsIsLine(Run(ops[..k]));
    }
    FirstWinIsFirstFive(ops);
    WinsIsLine(Run(ops));
    FivesAreLines(Run(ops).board);
  }

  /** The byte of a cell: column times sixteen plus row. */
  lemma {:induction false} ByteOfCell(r: int, c: int)
    requires 0 <= r < 16 && 0 <= c < 16
    ensures ParseCoor(16 * c + r) == Cell(r, c)
  {
  }

  /** A stone is accepted under the next number on an empty cell of the 15 by 15 board. */
  lemma {:induction false} AcceptedIff(s: State, move: int, coor: byte)
    ensures Accepts(s, move, coor) <==> move == s.cursor && Has(s.board, coor % 16, coor / 16, 0xFF)
  {
  }

  /** An accepted stone changes one cell, to the colour of its number, and one entry of the
      record; any other changes nothing. */
  lemma {:induction false} StoneLands(s: State, move: int, coor: byte)
    requires Logged(s)
    ensures var s', r, c := PlaceStone(s, move, coor), coor % 16, coor / 16;
      if move == s.cursor && Has(s.board, r, c, 0xFF) then
        && s.cursor < 225 && s'.cursor == s.cursor + 1 && s'.record == s.record[s.cursor := coor]
        && s'.board[r][c] == s.cursor % 2
        && forall y, x :: 0 <= y < 15 && 0 <= x < 15 && (y != r || x != c) ==> s'.board[y][x] == s.board[y][x]
      else s' == s
  {
    if Accepts(s, move, coor) {
      EmptyCellMeansRoomInLog(s, coor);
      var s', p := PlaceStone(s, move, coor), ParseCoor(coor);
      forall y, x | 0 <= y < 15 && 0 <= x < 15 && (y != p.row || x != p.col)
        ensures s'.board[y][x] == s.board[y][x]
      {
        assert At(s'.board, Cell(y, x)) == At(s.board, Cell(y, x));
      }
      assert At(s'.board, p) == Turn(s);
    }
  }

  predicate OthersTurn(cursor: int, color: byte) {
    cursor % 2 != color
  }

  /** A regret goes back to the latest earlier moment at which it was the other's turn, and is
      refused exactly when there was none; the board and the record stay. */
  lemma {:induction false} RegretGoesBack(s: State, color: byte)
    requires Logged(s) && (color == 0 || color == 1)
    ensures var s' := TakeBack(s, color);
      && s' == s.(cursor := s'.cursor)
      && (s'.cursor == s.cursor <==> forall c :: 0 <= c < s.cursor ==> !OthersTurn(c, color))
      && (s'.cursor != s.cursor ==>
            && s'.cursor < s.cursor && OthersTurn(s'.cursor, color)
            && forall c :: s'.cursor < c < s.cursor ==> !OthersTurn(c, color))
  {
    var s' := TakeBack(s, color);
    if s'.cursor == s.cursor {
      assert s.cursor == 0 || (s.cursor == 1 && color == 0);
    } else {
      assert OthersTurn(s'.cursor, color);
    }
  }
}
