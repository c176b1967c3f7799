/**
 The files of `tools/gen_clone.py` and its self-check, which re-reads them and re-assembles the planted
 solution; and what the other tools make of a generated instance. A file is its header number and its
 rows of integers.
 */
module CloneCheck {
  import opened Puzzle
  import opened CnfModel
  import opened CompletionCnf
  import opened RootTables
  import opened RootToCnf
  import opened VerifyModel
  import opened ValidatePieces
  import opened CloneGen

  datatype File = File(header: nat, rows: seq<seq<int>>)

  // ------------------------------------------------------------------
  // Writing
  // ------------------------------------------------------------------

  /** One line per piece: `id top left bottom right`. */
  function PieceRow(p: int, q: Quad): seq<int> { [p, q[TOP], q[LEFT], q[BOTTOM], q[RIGHT]] }

  method WritePieces(count: nat, pieces: Pieces) returns (f: File)
    requires forall p :: 1 <= p <= count ==> p in pieces
    ensures f.header == count && |f.rows| == count
    ensures forall i :: 0 <= i < count ==> f.rows[i] == PieceRow(i + 1, pieces[i + 1])
  {
    var rows: seq<seq<int>> := [];
    for i := 0 to count
      invariant |rows| == i && forall j :: 0 <= j < i ==> rows[j] == PieceRow(j + 1, pieces[j + 1])
    {
      rows := rows + [PieceRow(i + 1, pieces[i + 1])];
    }
    f := File(count, rows);
  }

  function CellRow(c: Cell, pl: Placed): seq<int> { [c.x, c.y, pl.id, pl.rot] }

  method WriteSolution(n: nat, board: Grid) returns (f: File)
    requires forall c :: InGrid(c, n) ==> c in board
    ensures f.header == n && |f.rows| == |Cells(n, n)|
    ensures forall i :: 0 <= i < |f.rows| ==> Cells(n, n)[i] in board && f.rows[i] == CellRow(Cells(n, n)[i], board[Cells(n, n)[i]])
  {
    CellsAll(n, n);
    var cells := Cells(n, n);
    assert forall i :: 0 <= i < |cells| ==> cells[i] in cells;
    var rows: seq<seq<int>> := [];
    for i := 0 to |cells|
      invariant |rows| == i && forall j :: 0 <= j < i ==> rows[j] == CellRow(cells[j], board[cells[j]])
    {
      rows := rows + [CellRow(cells[i], board[cells[i]])];
    }
    f := File(n, rows);
  }

  function HintPositions(n: nat): seq<Cell> { [Cell(n / 2 - 1, n / 2), Cell(2, 2), Cell(n - 3, 2), Cell(2, n - 3), Cell(n - 3, n - 3)] }

  /** The five positions are five cells on a board of side 3 and from side 7 on. */
  lemma HintsApart(n: nat)
    requires n >= 3
    ensures NoDup(HintPositions(n)) <==> n == 3 || n >= 7
  {
    var p := HintPositions(n);
    if 4 <= n <= 6 {
      assert p[0] == p[2] || p[1] == p[2] || p[0] == p[3];
    }
  }

  function HintRow(board: Grid, c: Cell, first: bool): seq<int>
    requires c in board
  {
    [board[c].id, c.x, c.y, board[c].rot, if first then 1 else 0]
  }

  /** The hints of the first `count` positions; refused when two of the five coincide, as on sides 4 to 6. */
  method BuildHints(n: nat, board: Grid, count: nat) returns (hints: Option<File>)
    requires n >= 3 && forall c :: InGrid(c, n) ==> c in board
    ensures hints == None <==> count > 0 && 4 <= n <= 6
    ensures hints.Some? ==>
      && hints.value.header == |hints.value.rows| == (if count < 5 then count else 5)
      && forall i :: 0 <= i < |hints.value.rows| ==>
           HintPositions(n)[i] in board && hints.value.rows[i] == HintRow(board, HintPositions(n)[i], i == 0)
  {
    HintsApart(n);
    if count == 0 {
      return Some(File(0, []));
    }
    var positions := HintPositions(n);
    assert forall i :: 0 <= i < 5 ==> InGrid(positions[i], n);
    if exists i, j :: 0 <= i < j < |positions| && positions[i] == positions[j] {
      return None;
    }
    var rows: seq<seq<int>> := [];
    var last := if count < 5 then count else 5;
    for i := 0 to last
      invariant |rows| == i && forall j :: 0 <= j < i ==> rows[j] == HintRow(board, positions[j], j == 0)
    {
      rows := rows + [HintRow(board, positions[i], i == 0)];
    }
    hints := Some(File(last, rows));
  }

  // ------------------------------------------------------------------
  // Reading back
  // ------------------------------------------------------------------

  predicate RowsOf5(rows: seq<seq<int>>) { forall i :: 0 <= i < |rows| ==> |rows[i]| == 5 }

  predicate RowsOf4(rows: seq<seq<int>>) { forall i :: 0 <= i < |rows| ==> |rows[i]| == 4 }

  /** The dictionary of the first `n` piece lines: faces in the order top, right, bottom, left. */
  function PieceTable(rows: seq<seq<int>>, n: nat): Pieces
    requires n <= |rows| && RowsOf5(rows)
  {
    if n == 0 then map[]
    else
      var r := rows[n - 1];
      var q: Quad := [r[1], r[4], r[3], r[2]];
      PieceTable(rows, n - 1)[r[0] := q]
  }

  /** A line count that disagrees with the header, or a line that is not five numbers, is refused. */
  method ReadPieces(f: File) returns (r: Option<Pieces>)
    ensures r == if |f.rows| == f.header && RowsOf5(f.rows) then Some(PieceTable(f.rows, |f.rows|)) else None
  {
    var pieces: Pieces := map[];
    for i := 0 to |f.rows|
      invariant forall j :: 0 <= j < i ==> |f.rows[j]| == 5
      invariant RowsOf5(f.rows) ==> pieces == PieceTable(f.rows, i)
    {
      var row := f.rows[i];
      if |row| != 5 {
        return None;
      }
      var q: Quad := [row[1], row[4], row[3], row[2]];
      pieces := pieces[row[0] := q];
    }
    if |f.rows| != f.header {
      return None;
    }
    r := Some(pieces);
  }

  function CellTable(rows: seq<seq<int>>, n: nat): Grid
    requires n <= |rows| && RowsOf4(rows)
  {
    if n == 0 then map[]
    else CellTable(rows, n - 1)[Cell(rows[n - 1][0], rows[n - 1][1]) := Placed(rows[n - 1][2], rows[n - 1][3])]
  }

  predicate Complete(n: nat, cells: Grid) { forall c :: c in GridCells(n) ==> c in cells }

  function Square(n: nat, cells: Grid): Grid
    requires Complete(n, cells)
  {
    map c | c in GridCells(n) :: cells[c]
  }

  /** A line that is not four numbers, or a missing cell, is refused; cells outside the square are ignored. */
  method ReadSolution(f: File) returns (r: Option<Grid>)
    ensures r == if RowsOf4(f.rows) && Complete(f.header, CellTable(f.rows, |f.rows|))
                 then Some(Square(f.header, CellTable(f.rows, |f.rows|))) else None
  {
    var cells: Grid := map[];
    for i := 0 to |f.rows|
      invariant forall j :: 0 <= j < i ==> |f.rows[j]| == 4
      invariant RowsOf4(f.rows) ==> cells == CellTable(f.rows, i)
    {
      var row := f.rows[i];
      if |row| != 4 {
        return None;
      }
      cells := cells[Cell(row[0], row[1]) := Placed(row[2], row[3])];
    }
    if !Complete(f.header, cells) {
      return None;
    }
    r := Some(Square(f.header, cells));
  }

  // ------------------------------------------------------------------
  // The self-check
  // ------------------------------------------------------------------

  datatype Trouble =
    | PieceCount(n: nat)
    | MissingPieces
    | PlacedSeveralTimes
    | Unknown(c: Cell)
    | OutlineNotGrey(c: Cell, side: int)
    | InnerFaceGrey(c: Cell, side: int)
    | EdgeMismatch(c: Cell, side: int)
    | HintCount(n: nat)
    | HintWrong(i: nat)

  datatype Verdict = Raises | Found(errors: seq<Trouble>)

  /** The faces shown at a cell; an unknown piece counts as blank. */
  function Oriented(pieces: Pieces, board: Grid, c: Cell): Quad
    requires c in board
  {
    if board[c].id in pieces then Faces(pieces[board[c].id], board[c].rot) else [0, 0, 0, 0]
  }

  predicate CellRight(n: nat, pieces: Pieces, board: Grid, c: Cell)
    requires board.Keys == GridCells(n) && c in board
  {
    var f := Oriented(pieces, board, c);
    && board[c].id in pieces
    && (forall side :: 0 <= side < 4 ==> (f[side] == 0 <==> !InGrid(Neighbour(c, side), n)))
    && (InGrid(Neighbour(c, RIGHT), n) ==> f[RIGHT] == Oriented(pieces, board, Neighbour(c, RIGHT))[LEFT])
    && (InGrid(Neighbour(c, BOTTOM), n) ==> f[BOTTOM] == Oriented(pieces, board, Neighbour(c, BOTTOM))[TOP])
  }

  method CheckCell(n: nat, pieces: Pieces, board: Grid, c: Cell) returns (errors: seq<Trouble>)
    requires board.Keys == GridCells(n) && c in board
    ensures errors == [] <==> CellRight(n, pieces, board, c)
  {
    errors := [];
    if board[c].id !in pieces {
      errors := [Unknown(c)];
    }
    var f := Oriented(pieces, board, c);
    for side := 0 to 4
      invariant errors == [] <==> board[c].id in pieces && forall s :: 0 <= s < side ==> (f[s] == 0 <==> !InGrid(Neighbour(c, s), n))
    {
      var outside := !InGrid(Neighbour(c, side), n);
      if outside && f[side] != 0 {
        errors := errors + [OutlineNotGrey(c, side)];
      }
      if !outside && f[side] == 0 {
        errors := errors + [InnerFaceGrey(c, side)];
      }
    }
    if c.x + 1 < n && f[RIGHT] != Oriented(pieces, board, Cell(c.x + 1, c.y))[LEFT] {
      errors := errors + [EdgeMismatch(c, RIGHT)];
    }
    if c.y + 1 < n && f[BOTTOM] != Oriented(pieces, board, Cell(c.x, c.y + 1))[TOP] {
      errors := errors + [EdgeMismatch(c, BOTTOM)];
    }
  }

  predicate BoardRight(n: nat, pieces: Pieces, board: Grid)
    requires board.Keys == GridCells(n)
  {
    && |pieces| == n * n && pieces.Keys <= Ids(board) && DistinctIds(board)
    && AllCellsRight(n, pieces, board)
  }

  predicate AllCellsRight(n: nat, pieces: Pieces, board: Grid)
    requires board.Keys == GridCells(n)
  {
    forall c :: c in board ==> CellRight(n, pieces, board, c)
  }

  method CheckBoard(n: nat, pieces: Pieces, board: Grid) returns (errors: seq<Trouble>)
    requires board.Keys == GridCells(n)
    ensures errors == [] <==> BoardRight(n, pieces, board)
  {
    errors := [];
    if |pieces| != n * n {
      errors := errors + [PieceCount(|pieces|)];
    }
    if !(pieces.Keys <= Ids(board)) {
      errors := errors + [MissingPieces];
    }
    if !DistinctIds(board) {
      errors := errors + [PlacedSeveralTimes];
    }
    var more := CheckCells(n, pieces, board);
    errors := errors + more;
  }

  method CheckCells(n: nat, pieces: Pieces, board: Grid) returns (errors: seq<Trouble>)
    requires board.Keys == GridCells(n)
    ensures errors == [] <==> AllCellsRight(n, pieces, board)
  {
    errors := [];
    var cells := Cells(n, n);
    CellsCover(n, board);
    for i := 0 to |cells|
      invariant errors == [] <==> RightUpto(n, pieces, board, cells, i)
    {
      RightStep(n, pieces, board, cells, i);
      var more := CheckCell(n, pieces, board, cells[i]);
      errors := errors + more;
    }
    RightThroughout(n, pieces, board, cells);
  }

  lemma CellsCover(n: nat, board: Grid)
    requires board.Keys == GridCells(n)
    ensures forall c :: c in Cells(n, n) <==> c in board
  {
    CellsAll(n, n);
  }

  lemma RightStep(n: nat, pieces: Pieces, board: Grid, cells: seq<Cell>, i: nat)
    requires board.Keys == GridCells(n) && i < |cells| && forall c :: c in cells ==> c in board
    ensures cells[i] in board
    ensures RightUpto(n, pieces, board, cells, i + 1) <==> RightUpto(n, pieces, board, cells, i) && CellRight(n, pieces, board, cells[i])
  {
    assert cells[i] in cells;
  }

  predicate RightUpto(n: nat, pieces: Pieces, board: Grid, cells: seq<Cell>, i: nat)
    requires board.Keys == GridCells(n) && i <= |cells| && forall c :: c in cells ==> c in board
  {
    forall j :: 0 <= j < i ==> CellRight(n, pieces, board, cells[j])
  }

  lemma RightThroughout(n: nat, pieces: Pieces, board: Grid, cells: seq<Cell>)
    requires board.Keys == GridCells(n) && forall c :: c in cells <==> c in board
    ensures RightUpto(n, pieces, board, cells, |cells|) <==> AllCellsRight(n, pieces, board)
  {
    if RightUpto(n, pieces, board, cells, |cells|) {
      forall c | c in board ensures CellRight(n, pieces, board, c) {
        assert c in cells;
      }
    }
  }

  /** List indexing as the language does it: negative indices count from the end. */
  function PyIndex(i: int, n: nat): (k: int)
    ensures 0 <= i ==> k == i
    ensures i < 0 ==> k - n == i
  {
    if i < 0 then i + n else i
  }

  predicate Indexable(i: int, n: nat) { 0 <= PyIndex(i, n) < n }

  predicate HintRight(n: nat, board: Grid, row: seq<int>)
    requires |row| == 5 && board.Keys == GridCells(n) && Indexable(row[1], n) && Indexable(row[2], n)
  {
    board[Cell(PyIndex(row[1], n), PyIndex(row[2], n))] == Placed(row[0], row[3])
  }

  predicate HintsReadable(n: nat, f: File) {
    forall i :: 0 <= i < |f.rows| ==> |f.rows[i]| == 5 && Indexable(f.rows[i][1], n) && Indexable(f.rows[i][2], n)
  }

  predicate HintsRight(n: nat, board: Grid, f: File)
    requires board.Keys == GridCells(n)
  {
    && HintsReadable(n, f) && |f.rows| == f.header
    && forall i :: 0 <= i < |f.rows| ==> HintRight(n, board, f.rows[i])
  }

  method CheckHints(n: nat, board: Grid, f: File) returns (v: Verdict)
    requires board.Keys == GridCells(n)
    ensures v == Raises <==> !HintsReadable(n, f)
    ensures v == Found([]) <==> HintsRight(n, board, f)
  {
    var errors: seq<Trouble> := [];
    if |f.rows| != f.header {
      errors := [HintCount(|f.rows|)];
    }
    for i := 0 to |f.rows|
      invariant forall j :: 0 <= j < i ==> |f.rows[j]| == 5 && Indexable(f.rows[j][1], n) && Indexable(f.rows[j][2], n)
      invariant errors == [] <==> |f.rows| == f.header && forall j :: 0 <= j < i ==> HintRight(n, board, f.rows[j])
    {
      var row := f.rows[i];
      if |row| != 5 || !Indexable(row[1], n) || !Indexable(row[2], n) {
        return Raises;
      }
      if board[Cell(PyIndex(row[1], n), PyIndex(row[2], n))] != Placed(row[0], row[3]) {
        errors := errors + [HintWrong(i)];
      }
    }
    v := Found(errors);
  }

  /** What it takes for the self-check to find nothing. */
  predicate FilesRight(pf: File, sf: File, hf: Option<File>) {
    && |pf.rows| == pf.header && RowsOf5(pf.rows)
    && RowsOf4(sf.rows) && Complete(sf.header, CellTable(sf.rows, |sf.rows|))
    && var board := Square(sf.header, CellTable(sf.rows, |sf.rows|));
       && BoardRight(sf.header, PieceTable(pf.rows, |pf.rows|), board)
       && (hf.Some? ==> HintsRight(sf.header, board, hf.value))
  }

  method CheckSolution(pf: File, sf: File, hf: Option<File>) returns (v: Verdict)
    ensures v == Found([]) <==> FilesRight(pf, sf, hf)
  {
    var pieces := ReadPieces(pf);
    if pieces == None {
      return Raises;
    }
    var board := ReadSolution(sf);
    if board == None {
      return Raises;
    }
    var errors := CheckBoard(sf.header, pieces.value, board.value);
    if hf.Some? {
      var h := CheckHints(sf.header, board.value, hf.value);
      if h == Raises {
        return Raises;
      }
      errors := errors + h.errors;
    }
    v := Found(errors);
  }

  // ------------------------------------------------------------------
  // Round trips
  // ------------------------------------------------------------------

  ghost predicate PieceFileOf(f: File, count: nat, pieces: Pieces)
    requires forall p :: p in pieces <==> 1 <= p <= count
  {
    f.header == count && |f.rows| == count && forall i :: 0 <= i < count ==> f.rows[i] == PieceRow(i + 1, pieces[i + 1])
  }

  lemma {:induction false} PieceTableBack(f: File, count: nat, pieces: Pieces, n: nat)
    requires (forall p :: p in pieces <==> 1 <= p <= count) && PieceFileOf(f, count, pieces) && n <= count
    ensures RowsOf5(f.rows)
    ensures forall p :: p in PieceTable(f.rows, n) <==> 1 <= p <= n
    ensures forall p :: 1 <= p <= n ==> PieceTable(f.rows, n)[p] == pieces[p]
  {
    if n > 0 {
      PieceTableBack(f, count, pieces, n - 1);
      var r, q := f.rows[n - 1], pieces[n];
      assert [r[1], r[4], r[3], r[2]] == q;
    }
  }

  /** Writing the pieces and reading them back gives the same pieces. */
  lemma PiecesRoundTrip(f: File, count: nat, pieces: Pieces)
    requires (forall p :: p in pieces <==> 1 <= p <= count) && PieceFileOf(f, count, pieces)
    ensures RowsOf5(f.rows) && PieceTable(f.rows, |f.rows|) == pieces
  {
    PieceTableBack(f, count, pieces, count);
  }

  ghost predicate SolutionFileOf(f: File, n: nat, board: Grid) {
    && f.header == n && |f.rows| == |Cells(n, n)|
    && forall i :: 0 <= i < |f.rows| ==> Cells(n, n)[i] in board && f.rows[i] == CellRow(Cells(n, n)[i], board[Cells(n, n)[i]])
  }

  ghost predicate RowsOfCells(rows: seq<seq<int>>, cells: seq<Cell>, board: Grid) {
    |rows| == |cells| && forall i :: 0 <= i < |rows| ==> cells[i] in board && rows[i] == CellRow(cells[i], board[cells[i]])
  }

  lemma {:induction false} CellTableBack(rows: seq<seq<int>>, cells: seq<Cell>, board: Grid, k: nat)
    requires RowsOfCells(rows, cells, board) && k <= |rows|
    ensures RowsOf4(rows)
    ensures forall c :: c in CellTable(rows, k) <==> c in cells[..k]
    ensures forall c :: c in CellTable(rows, k) ==> c in board && CellTable(rows, k)[c] == board[c]
  {
    if k > 0 {
      CellTableBack(rows, cells, board, k - 1);
      var c, r := cells[k - 1], rows[k - 1];
      assert cells[..k] == cells[..k - 1] + [c];
      assert Cell(r[0], r[1]) == c && Placed(r[2], r[3]) == board[c];
    }
  }

  /** Writing the solution and reading it back gives the same board. */
  lemma SolutionRoundTrip(f: File, n: nat, board: Grid)
    requires SolutionFileOf(f, n, board) && board.Keys == GridCells(n)
    ensures RowsOf4(f.rows) && Complete(n, CellTable(f.rows, |f.rows|)) && Square(n, CellTable(f.rows, |f.rows|)) == board
  {
    var cells := Cells(n, n);
    CellTableBack(f.rows, cells, board, |f.rows|);
    CellsCover(n, board);
    assert cells[..|f.rows|] == cells;
  }

  // ------------------------------------------------------------------
  // What passes
  // ------------------------------------------------------------------

  lemma SolvedCellRight(n: nat, pieces: Pieces, board: Grid, c: Cell)
    requires Solves(n, pieces, board) && InnerGreyFree(n, pieces, board) && c in board
    ensures CellRight(n, pieces, board, c)
  {
    forall side | 0 <= side < 4 ensures Oriented(pieces, board, c)[side] == 0 <==> !InGrid(Neighbour(c, side), n) {
      assert SideFits(n, pieces, board, c, side);
      assert Face(pieces, board, c, side) == Oriented(pieces, board, c)[side];
    }
    assert SideFits(n, pieces, board, c, RIGHT) && SideFits(n, pieces, board, c, BOTTOM);
  }

  lemma FacingRight(n: nat, pieces: Pieces, board: Grid, c: Cell)
    requires board.Keys == GridCells(n) && c in board && CellRight(n, pieces, board, c) && InGrid(Cell(c.x + 1, c.y), n)
    ensures Oriented(pieces, board, c)[RIGHT] == Oriented(pieces, board, Cell(c.x + 1, c.y))[LEFT]
  {
    assert Neighbour(c, RIGHT) == Cell(c.x + 1, c.y);
  }

  lemma FacingBelow(n: nat, pieces: Pieces, board: Grid, c: Cell)
    requires board.Keys == GridCells(n) && c in board && CellRight(n, pieces, board, c) && InGrid(Cell(c.x, c.y + 1), n)
    ensures Oriented(pieces, board, c)[BOTTOM] == Oriented(pieces, board, Cell(c.x, c.y + 1))[TOP]
  {
    assert Neighbour(c, BOTTOM) == Cell(c.x, c.y + 1);
  }

  /** The same two cells seen from the other one. */
  lemma FacingBack(n: nat, pieces: Pieces, board: Grid, c: Cell, side: int)
    requires board.Keys == GridCells(n) && c in board && (side == LEFT || side == TOP) && InGrid(Neighbour(c, side), n)
    requires CellRight(n, pieces, board, Neighbour(c, side))
    ensures Oriented(pieces, board, c)[side] == Oriented(pieces, board, Neighbour(c, side))[Opposite(side)]
  {
    var nb := Neighbour(c, side);
    if side == LEFT {
      assert Cell(nb.x + 1, nb.y) == c;
      FacingRight(n, pieces, board, nb);
    } else {
      assert Cell(nb.x, nb.y + 1) == c;
      FacingBelow(n, pieces, board, nb);
    }
  }

  /** The right and bottom comparisons of all cells cover all four sides. */
  lemma RightFacing(n: nat, pieces: Pieces, board: Grid, c: Cell, side: int)
    requires board.Keys == GridCells(n) && c in board && 0 <= side < 4 && InGrid(Neighbour(c, side), n)
    requires CellRight(n, pieces, board, c) && CellRight(n, pieces, board, Neighbour(c, side))
    ensures Oriented(pieces, board, c)[side] == Oriented(pieces, board, Neighbour(c, side))[Opposite(side)]
  {
    if side == RIGHT {
      FacingRight(n, pieces, board, c);
    } else if side == BOTTOM {
      FacingBelow(n, pieces, board, c);
    } else {
      FacingBack(n, pieces, board, c, side);
    }
  }

  lemma RightSideFits(n: nat, pieces: Pieces, board: Grid, c: Cell, side: int)
    requires board.Keys == GridCells(n) && Known(pieces, board) && c in board && 0 <= side < 4
    requires AllCellsRight(n, pieces, board)
    ensures SideFits(n, pieces, board, c, side)
    ensures InGrid(Neighbour(c, side), n) ==> Face(pieces, board, c, side) != GREY
  {
    assert CellRight(n, pieces, board, c);
    var nb := Neighbour(c, side);
    if InGrid(nb, n) {
      assert CellRight(n, pieces, board, nb);
      RightFacing(n, pieces, board, c, side);
    }
  }

  lemma RightSolves(n: nat, pieces: Pieces, board: Grid)
    requires board.Keys == GridCells(n) && (forall c :: c in board ==> 0 <= board[c].rot < 4)
    requires BoardRight(n, pieces, board)
    ensures Solves(n, pieces, board) && InnerGreyFree(n, pieces, board)
  {
    forall c | c in board ensures board[c].id in pieces { assert CellRight(n, pieces, board, c); }
    forall c, side | c in board && 0 <= side < 4
      ensures SideFits(n, pieces, board, c, side)
      ensures InGrid(Neighbour(c, side), n) ==> Face(pieces, board, c, side) != GREY
    {
      RightSideFits(n, pieces, board, c, side);
    }
    assert Ids(board) == pieces.Keys;
  }

  lemma SolvedRight(n: nat, pieces: Pieces, board: Grid)
    requires Solves(n, pieces, board) && InnerGreyFree(n, pieces, board)
    ensures BoardRight(n, pieces, board)
  {
    forall c | c in board ensures CellRight(n, pieces, board, c) { SolvedCellRight(n, pieces, board, c); }
    GridSize(n);
    FillingSize(board, pieces);
  }

  /** For rotations in range the board part finds nothing exactly on a solution without inner grey. */
  lemma BoardRightExact(n: nat, pieces: Pieces, board: Grid)
    requires board.Keys == GridCells(n) && forall c :: c in board ==> 0 <= board[c].rot < 4
    ensures BoardRight(n, pieces, board) <==> Solves(n, pieces, board) && InnerGreyFree(n, pieces, board)
  {
    if BoardRight(n, pieces, board) {
      RightSolves(n, pieces, board);
    } else if Solves(n, pieces, board) && InnerGreyFree(n, pieces, board) {
      SolvedRight(n, pieces, board);
    }
  }

  lemma FillingSize(g: Grid, pieces: Pieces)
    requires DistinctIds(g) && Ids(g) == pieces.Keys
    ensures |g| == |pieces|
  {
    IdsAtLeast(g);
    IdsAtMost(g);
  }

  /** The hint file of a board. */
  ghost predicate HintFileOf(f: File, n: nat, board: Grid) {
    && f.header == |f.rows| <= 5
    && forall i :: 0 <= i < |f.rows| ==> HintPositions(n)[i] in board && f.rows[i] == HintRow(board, HintPositions(n)[i], i == 0)
  }

  /** Every hint agrees with the planted board. */
  lemma HintsAgree(f: File, n: nat, board: Grid)
    requires HintFileOf(f, n, board) && board.Keys == GridCells(n)
    ensures HintsRight(n, board, f)
  {
    forall i | 0 <= i < |f.rows|
      ensures |f.rows[i]| == 5 && Indexable(f.rows[i][1], n) && Indexable(f.rows[i][2], n) && HintRight(n, board, f.rows[i])
    {
      var c := HintPositions(n)[i];
      assert InGrid(c, n) && f.rows[i] == HintRow(board, c, i == 0);
      assert Cell(f.rows[i][1], f.rows[i][2]) == c;
    }
  }

  /** A planted solution: pieces `1 .. n*n`, assembled without grey inside. */
  ghost predicate Planted(n: nat, board: Grid, pieces: Pieces) {
    && Solves(n, pieces, board) && InnerGreyFree(n, pieces, board)
    && forall p :: p in pieces <==> 1 <= p <= n * n
  }

  /** The files written for a planted solution pass the self-check. */
  lemma GeneratedFilesPass(n: nat, board: Grid, pieces: Pieces, pf: File, sf: File, hf: Option<File>)
    requires Planted(n, board, pieces)
    requires PieceFileOf(pf, n * n, pieces) && SolutionFileOf(sf, n, board)
    requires hf.Some? ==> HintFileOf(hf.value, n, board)
    ensures FilesRight(pf, sf, hf)
  {
    PiecesRoundTrip(pf, n * n, pieces);
    SolutionRoundTrip(sf, n, board);
    SolvedRight(n, pieces, board);
    if hf.Some? {
      HintsAgree(hf.value, n, board);
    }
  }

  /** Draw, write, re-read, check: a draw that is kept never fails its own check. */
  method Generate(n: nat, k: nat, m: nat, hints: nat) returns (d: Draw, v: Option<Verdict>)
    requires n >= 3
    ensures d.Drawn? ==> GoodDraw(n, k, m, d.edges, d.board, d.pieces) && Planted(n, d.board, d.pieces)
    ensures v.Some? ==> d.Drawn? && v.value == Found([])
    ensures v == None <==> !d.Drawn? || (hints > 0 && 4 <= n <= 6)
    ensures d.Rejected? ==> Coloured(n, d.edges) && InGrid(d.at, n) && Redundant(n, d.edges, d.at)
  {
    v := None;
    d := DrawInstance(n, k, m);
    if !d.Drawn? {
      return;
    }
    var pf := WritePieces(n * n, d.pieces);
    var sf := WriteSolution(n, d.board);
    var hf := BuildHints(n, d.board, hints);
    if hf == None {
      return;
    }
    GeneratedFilesPass(n, d.board, d.pieces, pf, sf, hf);
    var verdict := CheckSolution(pf, sf, hf);
    v := Some(verdict);
  }

  // ------------------------------------------------------------------
  // What the other tools make of a generated instance
  // ------------------------------------------------------------------

  ghost function LinesOf(count: nat, pieces: Pieces): (lines: seq<Line>)
    requires forall p :: p in pieces <==> 1 <= p <= count
    ensures |lines| == count && forall i :: 0 <= i < count ==> lines[i] == Line(i + 1, Mirror(pieces[i + 1]))
  {
    seq(count, i requires 0 <= i < count => Line(i + 1, Mirror(pieces[i + 1])))
  }

  lemma GeneratedLines(n: nat, pieces: Pieces, board: Grid)
    requires Solves(n, pieces, board) && forall p :: p in pieces <==> 1 <= p <= n * n
    ensures ListsPieces(LinesOf(n * n, pieces), pieces)
  {
    GridSize(n);
    FillingSize(board, pieces);
  }

  /** A generated instance passes the format validator, which reads its columns in another order. */
  lemma GeneratedValidates(n: nat, board: Grid, pieces: Pieces)
    requires n >= 2 && Planted(n, board, pieces)
    ensures TopologySound(LinesOf(n * n, pieces), n) && PairingSound(LinesOf(n * n, pieces)) && GreyStructure(pieces, n)
  {
    GeneratedLines(n, pieces, board);
    SolvedTopology(n, pieces, board, LinesOf(n * n, pieces));
    SolvedPairing(n, pieces, board, LinesOf(n * n, pieces));
    TopologyStructure(n, pieces, LinesOf(n * n, pieces));
  }

  /** Any part of a solution is a board without contradiction that the solution completes. */
  lemma PartOfSolution(n: nat, pieces: Pieces, full: Grid, part: Grid)
    requires Solves(n, pieces, full) && ExtendsBoard(full, part)
    ensures Consistent(n, pieces, part) && HasCompletion(n, pieces, part)
  {
    forall c, side | c in part && 0 <= side < 4 ensures SideFits(n, pieces, part, c, side) {
      assert SideFits(n, pieces, full, c, side);
    }
  }

  lemma KeptPartReady(n: nat, board: Grid, pieces: Pieces, part: Grid)
    requires n >= 2 && Planted(n, board, pieces) && ExtendsBoard(board, part)
    ensures Consistent(n, pieces, part) && HasCompletion(n, pieces, part)
    ensures GreyStructure(pieces, n) && |pieces| == n * n
  {
    GeneratedValidates(n, board, pieces);
    PartOfSolution(n, pieces, board, part);
    PieceTotal(n, board, pieces);
  }

  lemma CompletableSatisfiable(rt: Root, enc: Encoding)
    requires Consistent(rt.size, rt.pieces, rt.board) && GreyStructure(rt.pieces, rt.size)
    requires HasCompletion(rt.size, rt.pieces, rt.board) && Encodes(rt, enc)
    ensures Satisfiable(enc.clauses)
  {
    SatisfiableIffCompletable(rt, enc);
  }

  /**
   The positive control of the encoder: whatever part of the planted solution is kept, its formula is
   satisfiable, every model completes it, and the model verifier accepts every one of them.
   */
  lemma SelfTestSucceeds(n: nat, board: Grid, pieces: Pieces, part: Grid, rt: Root, enc: Encoding, rows: seq<Row>)
    requires n >= 2 && Planted(n, board, pieces) && ExtendsBoard(board, part) && Known(pieces, part)
    requires rt == Root(n, pieces, part, true) && Encodes(rt, enc) && RowsOf(rows, enc.xvar)
    ensures Satisfiable(enc.clauses)
    ensures forall model: set<int> :: Models(model, enc.clauses) ==> Acceptable(n, pieces, part, rows, model)
  {
    KeptPartReady(n, board, pieces, part);
    CompletableSatisfiable(rt, enc);
    ModelsAccepted(rt, enc, rows);
  }

  lemma PieceTotal(n: nat, board: Grid, pieces: Pieces)
    requires Solves(n, pieces, board)
    ensures |pieces| == n * n
  {
    GridSize(n);
    FillingSize(board, pieces);
  }

  lemma ModelsAccepted(rt: Root, enc: Encoding, rows: seq<Row>)
    requires Consistent(rt.size, rt.pieces, rt.board)
    requires GreyStructure(rt.pieces, rt.size) && |rt.pieces| == rt.size * rt.size
    requires Encodes(rt, enc) && RowsOf(rows, enc.xvar)
    ensures forall model: set<int> :: Models(model, enc.clauses) ==> Acceptable(rt.size, rt.pieces, rt.board, rows, model)
  {
    forall model: set<int> | Models(model, enc.clauses) ensures Acceptable(rt.size, rt.pieces, rt.board, rows, model) {
      StructureAccepts(rt, enc, rows, model);
    }
  }
}
