/** The rules of the board as values: cells, grids, five in a row, the log of moves, and what
    each operation of the engine does to them. */
module Chess {
  import opened Bytes

  const SIZE := 15
  const CELLS := 225
  const SPACE: byte := 0xFF
  const BLACK: byte := 0x00
  const WHITE: byte := 0x01

  // ---------- cells and grids ----------

  datatype Cell = Cell(row: int, col: int)

  predicate OnBoard(p: Cell) {
    0 <= p.row < SIZE && 0 <= p.col < SIZE
  }

  /** The server keeps the row in the low nibble and the column in the high nibble. */
  function ParseCoor(coor: byte): Cell {
    Cell(coor % 16, coor / 16)
  }

  lemma {:induction false} ParseCoorInjective(a: byte, b: byte)
    requires ParseCoor(a) == ParseCoor(b)
    ensures a == b
  {
    assert a == 16 * (a / 16) + a % 16;
    assert b == 16 * (b / 16) + b % 16;
  }

  type Grid = g: seq<seq<byte>> | |g| == SIZE && forall r :: 0 <= r < SIZE ==> |g[r]| == SIZE
    witness seq(SIZE, _ => seq(SIZE, _ => SPACE))

  function At(g: Grid, p: Cell): byte
    requires OnBoard(p)
  {
    g[p.row][p.col]
  }

  function Put(g: Grid, p: Cell, color: byte): (h: Grid)
    requires OnBoard(p)
    ensures forall q {:trigger At(h, q)} :: OnBoard(q) ==> At(h, q) == if q == p then color else At(g, q)
  {
    var row: seq<byte> := g[p.row];
    g[p.row := row[p.col := color]]
  }

  function Blank(): (g: Grid)
    ensures forall p {:trigger At(g, p)} :: OnBoard(p) ==> At(g, p) == SPACE
  {
    seq(SIZE, _ => seq(SIZE, _ => SPACE))
  }

  lemma {:induction false} SameCellsSameGrid(g: Grid, h: Grid)
    requires forall p :: OnBoard(p) ==> At(g, p) == At(h, p)
    ensures g == h
  {
    forall r | 0 <= r < SIZE
      ensures g[r] == h[r]
    {
      forall c | 0 <= c < SIZE
        ensures g[r][c] == h[r][c]
      {
        assert At(g, Cell(r, c)) == At(h, Cell(r, c));
      }
    }
  }

  // ---------- five in a row, over the whole board ----------

  datatype Axis = Horizontal | Diagonal | Vertical | AntiDiagonal

  /** The cell `k` steps from `p` along an axis. */
  function Walk(p: Cell, axis: Axis, k: int): Cell {
    match axis
    case Horizontal => Cell(p.row, p.col + k)
    case Diagonal => Cell(p.row + k, p.col + k)
    case Vertical => Cell(p.row + k, p.col)
    case AntiDiagonal => Cell(p.row + k, p.col - k)
  }

  predicate Shows(g: Grid, p: Cell, color: byte) {
    OnBoard(p) && At(g, p) == color
  }

  /** Five consecutive cells along an axis, named by the first of them. */
  datatype Window = Window(start: Cell, axis: Axis)

  ghost predicate IsFive(g: Grid, w: Window) {
    && OnBoard(w.start)
    && At(g, w.start) != SPACE
    && forall k :: 0 <= k < 5 ==> Shows(g, Walk(w.start, w.axis, k), At(g, w.start))
  }

  /** Every single-colour five-cell window of the board. */
  ghost function Fives(g: Grid): set<Window> {
    set r, c, axis: Axis | 0 <= r < SIZE && 0 <= c < SIZE && IsFive(g, Window(Cell(r, c), axis))
      :: Window(Cell(r, c), axis)
  }

  lemma {:induction false} FivesContains(g: Grid, w: Window)
    ensures w in Fives(g) <==> IsFive(g, w)
  {
    assert w == Window(Cell(w.start.row, w.start.col), w.axis);
  }

  /** Some five in a row along `axis` covers the cell `p`. */
  ghost predicate FiveAlong(g: Grid, p: Cell, axis: Axis) {
    exists s :: -4 <= s <= 0 && IsFive(g, Window(Walk(p, axis, s), axis))
  }

  ghost predicate FiveThrough(g: Grid, p: Cell) {
    exists axis: Axis :: FiveAlong(g, p, axis)
  }

  /** From `lo` to `hi` steps along the axis every cell has the colour of `p`. */
  ghost predicate Streak(g: Grid, p: Cell, axis: Axis, lo: int, hi: int)
    requires OnBoard(p)
  {
    forall k :: lo <= k <= hi ==> Shows(g, Walk(p, axis, k), At(g, p))
  }

  lemma {:induction false} WalkOn(p: Cell, axis: Axis, i: int, j: int)
    ensures Walk(Walk(p, axis, i), axis, j) == Walk(p, axis, i + j)
    ensures Walk(p, axis, 0) == p
  {
  }

  lemma {:induction false} StreakIsFive(g: Grid, p: Cell, axis: Axis, s: int)
    requires OnBoard(p) && At(g, p) != SPACE && -4 <= s <= 0
    ensures Streak(g, p, axis, s, s + 4) <==> IsFive(g, Window(Walk(p, axis, s), axis))
  {
    var start := Walk(p, axis, s);
    WalkOn(p, axis, s, -s);
    if Streak(g, p, axis, s, s + 4) {
      assert Shows(g, start, At(g, p));
      forall k | 0 <= k < 5
        ensures Shows(g, Walk(start, axis, k), At(g, p))
      {
        WalkOn(p, axis, s, k);
      }
    }
    if IsFive(g, Window(start, axis)) {
      assert Shows(g, Walk(start, axis, -s), At(g, start));
      forall k | s <= k <= s + 4
        ensures Shows(g, Walk(p, axis, k), At(g, p))
      {
        WalkOn(p, axis, s, k - s);
        assert Shows(g, Walk(start, axis, k - s), At(g, start));
      }
    }
  }

  /** The scan's arithmetic: `fore` and `back` are the lengths of the same-coloured runs on
      either side of `p`, each cut off at four. Counting five is exactly having a five. */
  lemma {:induction false} RunsDecideFive(g: Grid, p: Cell, axis: Axis, fore: int, back: int)
    requires OnBoard(p) && At(g, p) != SPACE
    requires 0 <= fore <= 4 && 0 <= back <= 4
    requires Streak(g, p, axis, -back, fore)
    requires fore == 4 || !Shows(g, Walk(p, axis, fore + 1), At(g, p))
    requires back == 4 || !Shows(g, Walk(p, axis, -back - 1), At(g, p))
    ensures 1 + fore + back >= 5 <==> FiveAlong(g, p, axis)
  {
    if 1 + fore + back >= 5 {
      assert Streak(g, p, axis, -back, -back + 4);
      StreakIsFive(g, p, axis, -back);
    }
    if FiveAlong(g, p, axis) {
      var s :| -4 <= s <= 0 && IsFive(g, Window(Walk(p, axis, s), axis));
      StreakIsFive(g, p, axis, s);
    }
  }

  /** A window that holds `p` is found among the five that start at most four cells before it. */
  lemma {:induction false} FiveHoldingCell(g: Grid, w: Window, k: int)
    requires IsFive(g, w) && 0 <= k < 5
    ensures FiveThrough(g, Walk(w.start, w.axis, k))
  {
    var p := Walk(w.start, w.axis, k);
    assert Walk(p, w.axis, -k) == w.start;
    assert FiveAlong(g, p, w.axis);
  }

  /** Filling an empty cell keeps every five there was; a five is new exactly when it covers
      the filled cell. */
  lemma {:induction false} NewFivesCoverNewStone(g: Grid, p: Cell, color: byte)
    requires OnBoard(p) && At(g, p) == SPACE && color != SPACE
    ensures Fives(g) <= Fives(Put(g, p, color))
    ensures FiveThrough(Put(g, p, color), p) <==> Fives(g) < Fives(Put(g, p, color))
  {
    var h := Put(g, p, color);
    forall w | w in Fives(g)
      ensures w in Fives(h)
    {
      FivesContains(g, w);
      FivesContains(h, w);
      assert Walk(w.start, w.axis, 0) == w.start;
    }
    if FiveThrough(h, p) {
      var axis: Axis :| FiveAlong(h, p, axis);
      var s :| -4 <= s <= 0 && IsFive(h, Window(Walk(p, axis, s), axis));
      var w := Window(Walk(p, axis, s), axis);
      assert Walk(w.start, axis, -s) == p;
      FivesContains(g, w);
      FivesContains(h, w);
      assert w in Fives(h) && w !in Fives(g);
    }
    if Fives(g) < Fives(h) {
      var w :| w in Fives(h) && w !in Fives(g);
      FivesContains(g, w);
      FivesContains(h, w);
      WalkOn(w.start, w.axis, 0, 0);
      var k :| 0 <= k < 5 && Walk(w.start, w.axis, k) == p;
      FiveHoldingCell(h, w, k);
    }
  }

  // ---------- the engine's state and the log of moves ----------

  datatype State = State(board: Grid, record: seq<byte>, cursor: nat)

  predicate Shaped(s: State) {
    |s.record| == CELLS && s.cursor <= CELLS
  }

  function Log(s: State): seq<byte>
    requires Shaped(s)
  {
    s.record[..s.cursor]
  }

  predicate ValidLog(log: seq<byte>) {
    && (forall i :: 0 <= i < |log| ==> OnBoard(ParseCoor(log[i])))
    && (forall i, j :: 0 <= i < j < |log| ==> log[i] != log[j])
  }

  /** What every run keeps, with or without `Regret`: logged cells are valid, distinct, and
      carry the colour of their move number. */
  predicate Logged(s: State) {
    && Shaped(s)
    && ValidLog(Log(s))
    && (forall i :: 0 <= i < s.cursor ==> At(s.board, ParseCoor(Log(s)[i])) == i % 2)
  }

  /** The board the log describes: colours by move number, everything else empty. */
  function Replay(log: seq<byte>): Grid
    requires forall i :: 0 <= i < |log| ==> OnBoard(ParseCoor(log[i]))
  {
    if log == [] then Blank()
    else
      var last := |log| - 1;
      Put(Replay(log[..last]), ParseCoor(log[last]), last % 2)
  }

  lemma {:induction false} ReplayIsEmptyOffTheLog(log: seq<byte>, p: Cell)
    requires forall i :: 0 <= i < |log| ==> OnBoard(ParseCoor(log[i]))
    requires OnBoard(p) && forall i :: 0 <= i < |log| ==> ParseCoor(log[i]) != p
    ensures At(Replay(log), p) == SPACE
  {
    if log != [] {
      ReplayIsEmptyOffTheLog(log[..|log| - 1], p);
    }
  }

  lemma {:induction false} ReplayColoursTheLog(log: seq<byte>, i: nat)
    requires ValidLog(log) && i < |log|
    ensures At(Replay(log), ParseCoor(log[i])) == i % 2
  {
    var last := |log| - 1;
    if i < last {
      ReplayColoursTheLog(log[..last], i);
      if ParseCoor(log[i]) == ParseCoor(log[last]) { ParseCoorInjective(log[i], log[last]); }
    }
  }

  // ---------- pigeonhole ----------

  lemma {:induction false} DistinctNumbersFit(s: seq<nat>, n: nat)
    requires forall i :: 0 <= i < |s| ==> s[i] < n
    requires forall i, j :: 0 <= i < j < |s| ==> s[i] != s[j]
    ensures |s| <= n
    decreases n
  {
    if s != [] {
      assert s[0] < n;
      if k :| 0 <= k < |s| && s[k] == n - 1 {
        DistinctNumbersFit(s[..k] + s[k + 1..], n - 1);
      } else {
        DistinctNumbersFit(s, n - 1);
      }
    }
  }

  function CellNumber(coor: byte): int {
    ParseCoor(coor).row * SIZE + ParseCoor(coor).col
  }

  /** A log of distinct valid cells has at most one entry per cell of the board. */
  lemma {:induction false} LogFits(log: seq<byte>)
    requires ValidLog(log)
    ensures |log| <= CELLS
  {
    var numbers := seq(|log|, i requires 0 <= i < |log| =>
      assert OnBoard(ParseCoor(log[i])); CellNumber(log[i]) as nat);
    forall i, j | 0 <= i < j < |log|
      ensures numbers[i] != numbers[j]
    {
      var p, q := ParseCoor(log[i]), ParseCoor(log[j]);
      if numbers[i] == numbers[j] {
        assert p.row * SIZE + p.col == q.row * SIZE + q.col;
        assert p == q;
        ParseCoorInjective(log[i], log[j]);
      }
    }
    DistinctNumbersFit(numbers, CELLS);
  }

  /** While some cell is still empty the log has room for it, so the write at the cursor is in
      bounds. */
  lemma {:induction false} EmptyCellMeansRoomInLog(s: State, coor: byte)
    requires Logged(s) && Shows(s.board, ParseCoor(coor), SPACE)
    ensures ValidLog(Log(s) + [coor])
    ensures s.cursor < CELLS
  {
    LogFits(Log(s) + [coor]);
  }

  // ---------- operations ----------

  function Turn(s: State): byte {
    s.cursor % 2
  }

  predicate Accepts(s: State, move: int, coor: byte) {
    move == s.cursor && Shows(s.board, ParseCoor(coor), SPACE)
  }

  function Restart(s: State): State {
    s.(board := Blank(), cursor := 0)
  }

  function PlaceStone(s: State, move: int, coor: byte): (s': State)
    requires Logged(s)
    ensures Logged(s')
    ensures Log(s') == if Accepts(s, move, coor) then Log(s) + [coor] else Log(s)
  {
    if !Accepts(s, move, coor) then s
    else
      EmptyCellMeansRoomInLog(s, coor);
      var s' := State(Put(s.board, ParseCoor(coor), Turn(s)), s.record[s.cursor := coor], s.cursor + 1);
      assert Log(s') == Log(s) + [coor];
      s'
  }

  /** How many moves a regret by `color` takes back: its own last one, or that and the reply. */
  function RegretDepth(s: State, color: byte): nat {
    if color == Turn(s) then 1 else 2
  }

  function TakeBack(s: State, color: byte): (s': State)
    requires Logged(s)
    ensures Logged(s')
  {
    var depth := RegretDepth(s, color);
    if s.cursor < depth then s
    else
      var s' := s.(cursor := s.cursor - depth);
      assert Log(s') == Log(s)[..s'.cursor];
      s'
  }

  /** The scan around the last stone found five in a row. */
  ghost predicate Wins(s: State)
    requires Logged(s)
  {
    s.cursor > 0 && FiveThrough(s.board, ParseCoor(Log(s)[s.cursor - 1]))
  }

  // ---------- runs ----------

  datatype Op = Init | Stone(move: int, coor: byte) | Regret(color: byte)

  function Start(): (s: State)
    ensures Logged(s)
  {
    State(Blank(), seq(CELLS, _ => 0), 0)
  }

  function Step(s: State, op: Op): (s': State)
    requires Logged(s)
    ensures Logged(s')
  {
    match op
    case Init => Restart(s)
    case Stone(move, coor) => PlaceStone(s, move, coor)
    case Regret(color) => TakeBack(s, color)
  }

  function Run(ops: seq<Op>): (s: State)
    ensures Logged(s)
  {
    if ops == [] then Start() else Step(Run(ops[..|ops| - 1]), ops[|ops| - 1])
  }

  /** Every run, including runs with `Regret`, keeps its log of distinct cells correctly
      coloured, within the record array, and short enough for a one-byte length. */
  lemma {:induction false} RunsKeepTheLog(ops: seq<Op>)
    ensures var s := Run(ops);
      && ValidLog(Log(s))
      && |Log(s)| <= CELLS < 256
      && forall i :: 0 <= i < |Log(s)| ==> At(s.board, ParseCoor(Log(s)[i])) == i % 2
  {
    LogFits(Log(Run(ops)));
  }

  /** Right after any accepted stone, in any state any run can reach: the local scan reports a
      win exactly when the board-wide set of fives grew. */
  lemma {:induction false} WinMeansFivesGrew(s: State, move: int, coor: byte)
    requires Logged(s) && Accepts(s, move, coor)
    ensures Fives(s.board) <= Fives(PlaceStone(s, move, coor).board)
    ensures Wins(PlaceStone(s, move, coor))
       <==> Fives(s.board) < Fives(PlaceStone(s, move, coor).board)
  {
    var s' := PlaceStone(s, move, coor);
    assert Log(s')[s'.cursor - 1] == coor;
    NewFivesCoverNewStone(s.board, ParseCoor(coor), Turn(s));
  }

  lemma {:induction false} BlankHasNoFive()
    ensures Fives(Blank()) == {}
  {
    forall w: Window
      ensures w !in Fives(Blank())
    {
      FivesContains(Blank(), w);
    }
  }

  /** The local scan refines the global rule: as long as no earlier state of the run was won,
      a win is reported exactly when there is a five in a row anywhere on the board. */
  lemma {:induction false} FirstWinIsFirstFive(ops: seq<Op>)
    requires forall i :: 0 <= i < |ops| ==> !ops[i].Regret?
    requires forall k :: 0 <= k < |ops| ==> !Wins(Run(ops[..k]))
    ensures Wins(Run(ops)) <==> Fives(Run(ops).board) != {}
  {
    BlankHasNoFive();
    if ops != [] {
      var last := |ops| - 1;
      var before := ops[..last];
      assert !Wins(Run(before));
      assert forall k :: 0 <= k < last ==> before[..k] == ops[..k];
      FirstWinIsFirstFive(before);
      var s := Run(before);
      match ops[last]
      case Init =>
      case Stone(move, coor) =>
        if Accepts(s, move, coor) {
          WinMeansFivesGrew(s, move, coor);
        }
    }
  }

  /** Without `Regret` the board is exactly what the log replays to. */
  lemma {:induction false} BoardIsReplayOfLog(ops: seq<Op>)
    requires forall i :: 0 <= i < |ops| ==> !ops[i].Regret?
    ensures Run(ops).board == Replay(Log(Run(ops)))
  {
    if ops != [] {
      var last := |ops| - 1;
      var s := Run(ops[..last]);
      assert s.board == Replay(Log(s)) by { BoardIsReplayOfLog(ops[..last]); }
      StepKeepsReplay(s, ops[last]);
    }
  }

  lemma {:induction false} StepKeepsReplay(s: State, op: Op)
    requires Logged(s) && s.board == Replay(Log(s)) && !op.Regret?
    ensures Step(s, op).board == Replay(Log(Step(s, op)))
  {
    if op.Stone? && Accepts(s, op.move, op.coor) {
      var log := Log(s) + [op.coor];
      assert log[..|log| - 1] == Log(s);
    }
  }

  /** `Regret` rewinds the log but leaves the stones: the board stops being the replay of the
      log exactly when the regret is granted. */
  lemma {:induction false} RegretKeepsReplayIffRefused(s: State, color: byte)
    requires Logged(s) && s.board == Replay(Log(s))
    ensures TakeBack(s, color).board == Replay(Log(TakeBack(s, color)))
       <==> s.cursor < RegretDepth(s, color)
  {
    var s' := TakeBack(s, color);
    if s.cursor >= RegretDepth(s, color) {
      var log := Log(s);
      assert Log(s') == log[..s'.cursor];
      var p := ParseCoor(log[s'.cursor]);
      forall i | 0 <= i < s'.cursor
        ensures ParseCoor(log[i]) != p
      {
        if ParseCoor(log[i]) == p { ParseCoorInjective(log[i], log[s'.cursor]); }
      }
      ReplayIsEmptyOffTheLog(Log(s'), p);
      assert At(s.board, p) == s'.cursor % 2;
    }
  }

  /** For instance: one stone placed and taken back leaves an empty log and a black stone. */
  lemma {:induction false} RegretLeavesAStone()
    ensures var s := TakeBack(PlaceStone(Start(), 0, 0x11), WHITE);
      s.cursor == 0 && At(s.board, Cell(1, 1)) == BLACK
  {
    assert Accepts(Start(), 0, 0x11) by { assert ParseCoor(0x11) == Cell(1, 1); }
    assert Turn(PlaceStone(Start(), 0, 0x11)) == WHITE;
  }

  // ---------- swapping rows and columns ----------

  function Swap(p: Cell): Cell {
    Cell(p.col, p.row)
  }

  function Transpose(g: Grid): (h: Grid)
    ensures forall p {:trigger At(h, p)} :: OnBoard(p) ==> At(h, p) == At(g, Swap(p))
  {
    seq(SIZE, r requires 0 <= r < SIZE => seq(SIZE, c requires 0 <= c < SIZE => g[c][r]))
  }

  /** The window covering the same five cells on the transposed board. */
  function SwapWindow(w: Window): Window {
    match w.axis
    case Horizontal => Window(Swap(w.start), Vertical)
    case Vertical => Window(Swap(w.start), Horizontal)
    case Diagonal => Window(Swap(w.start), Diagonal)
    case AntiDiagonal => Window(Swap(Walk(w.start, AntiDiagonal, 4)), AntiDiagonal)
  }

  lemma {:induction false} FiveSwaps(g: Grid, w: Window)
    requires IsFive(g, w)
    ensures IsFive(Transpose(g), SwapWindow(w))
  {
    var v := SwapWindow(w);
    assert Shows(g, Walk(w.start, w.axis, 0), At(g, w.start));
    assert Shows(g, Walk(w.start, w.axis, 4), At(g, w.start));
    forall k | 0 <= k < 5
      ensures Shows(Transpose(g), Walk(v.start, v.axis, k), At(g, w.start))
    {
      var j := if w.axis.AntiDiagonal? then 4 - k else k;
      assert Swap(Walk(v.start, v.axis, k)) == Walk(w.start, w.axis, j);
      assert Shows(g, Walk(w.start, w.axis, j), At(g, w.start));
    }
    assert Walk(v.start, v.axis, 0) == v.start;
  }

  lemma {:induction false} TransposeTwice(g: Grid)
    ensures Transpose(Transpose(g)) == g
  {
    SameCellsSameGrid(Transpose(Transpose(g)), g);
  }

  /** Five in a row does not depend on which nibble is the row: fives of the transposed board
      are the swapped fives, so one board has a five exactly when the other has. */
  lemma {:induction false} FivesOfTranspose(g: Grid)
    ensures forall w :: w in Fives(g) ==> SwapWindow(w) in Fives(Transpose(g))
    ensures Fives(g) != {} <==> Fives(Transpose(g)) != {}
  {
    var h := Transpose(g);
    forall w | w in Fives(g)
      ensures SwapWindow(w) in Fives(h)
    {
      FivesContains(g, w);
      FiveSwaps(g, w);
      FivesContains(h, SwapWindow(w));
    }
    if Fives(h) != {} {
      var w :| w in Fives(h);
      FivesContains(h, w);
      FiveSwaps(h, w);
      TransposeTwice(g);
      FivesContains(g, SwapWindow(w));
      assert SwapWindow(w) in Fives(g);
    }
    if Fives(g) != {} {
      var w :| w in Fives(g);
      assert SwapWindow(w) in Fives(h);
    }
  }
}
