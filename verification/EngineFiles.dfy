/**
 The generated files as the search engine (`src/core/readdata.c`) and the validator (`tools/validate_pieces.py`)
 read them. The engine reads numbers across line ends and keeps them in narrow integers.
 */
module EngineFiles {
  import opened Puzzle
  import opened ValidatePieces
  import opened CloneCheck

  /** The numbers of a file after its header, in order. */
  function Numbers(rows: seq<seq<int>>): seq<int> {
    if rows == [] then [] else Numbers(rows[..|rows| - 1]) + rows[|rows| - 1]
  }

  function Int8(x: int): (y: int)
    ensures -128 <= y < 128 && (-128 <= x < 128 ==> y == x)
  {
    (x + 128) % 256 - 128
  }

  function Int16(x: int): (y: int)
    ensures -32768 <= y < 32768 && (-32768 <= x < 32768 ==> y == x)
  {
    (x + 32768) % 65536 - 32768
  }

  function UInt8(x: int): (y: int)
    ensures 0 <= y < 256 && (0 <= x < 256 ==> y == x)
  {
    x % 256
  }

  datatype Part = Part(id: int, top: int, right: int, bottom: int, left: int, rotation: int)

  datatype BoardIndex = BoardIndex(id: int, x: int, y: int, rotation: int, mandatory: int)

  /** `read_parts`: a table with a blank part in front; refused unless there are exactly five numbers per announced piece. */
  method ReadParts(announced: nat, numbers: seq<int>) returns (ok: bool, parts: array<Part>)
    ensures ok <==> |numbers| == 5 * announced
    ensures ok ==> parts.Length == announced + 1 && parts[0] == Part(0, 0, 0, 0, 0, 0)
    ensures ok ==> forall i :: 1 <= i < parts.Length ==> IsPart(parts[i], numbers, 5 * (i - 1))
  {
    parts := new Part[announced + 1](i => Part(0, 0, 0, 0, 0, 0));
    var count, at := 1, 0;
    while at < |numbers|
      invariant 1 <= count <= announced + 1 && at == 5 * (count - 1) <= |numbers|
      invariant parts[0] == Part(0, 0, 0, 0, 0, 0)
      invariant forall i :: 1 <= i < count ==> IsPart(parts[i], numbers, 5 * (i - 1))
      decreases |numbers| - at
    {
      if |numbers| - at < 5 || count > announced {
        return false, parts;
      }
      parts[count] := Part(Int16(numbers[at]), Int8(numbers[at + 1]), Int8(numbers[at + 4]), Int8(numbers[at + 3]),
                           Int8(numbers[at + 2]), 0);
      count, at := count + 1, at + 5;
    }
    ok := count == announced + 1;
  }

  /** The part read from the five numbers at `at`: identifier, top, left, bottom, right. */
  predicate IsPart(p: Part, numbers: seq<int>, at: int) {
    && 0 <= at && at + 5 <= |numbers|
    && p.id == Int16(numbers[at]) && p.top == Int8(numbers[at + 1]) && p.left == Int8(numbers[at + 2])
    && p.bottom == Int8(numbers[at + 3]) && p.right == Int8(numbers[at + 4]) && p.rotation == 0
  }

  /** `read_indices`: likewise. */
  method ReadIndices(announced: nat, numbers: seq<int>) returns (ok: bool, hints: array<BoardIndex>)
    ensures ok <==> |numbers| == 5 * announced
    ensures ok ==> hints.Length == announced && forall i :: 0 <= i < hints.Length ==> IsIndex(hints[i], numbers, 5 * i)
  {
    hints := new BoardIndex[announced](i => BoardIndex(0, 0, 0, 0, 0));
    var count, at := 0, 0;
    while at < |numbers|
      invariant 0 <= count <= announced && at == 5 * count <= |numbers|
      invariant forall i :: 0 <= i < count ==> IsIndex(hints[i], numbers, 5 * i)
      decreases |numbers| - at
    {
      if |numbers| - at < 5 || count >= announced {
        return false, hints;
      }
      hints[count] := BoardIndex(Int16(numbers[at]), UInt8(numbers[at + 1]), UInt8(numbers[at + 2]), UInt8(numbers[at + 3]),
                                 UInt8(numbers[at + 4]));
      count, at := count + 1, at + 5;
    }
    ok := count == announced;
  }

  /** The hint read from the five numbers at `at`: identifier, column, row, rotation, mandatory. */
  predicate IsIndex(h: BoardIndex, numbers: seq<int>, at: int) {
    && 0 <= at && at + 5 <= |numbers|
    && h.id == Int16(numbers[at]) && h.x == UInt8(numbers[at + 1]) && h.y == UInt8(numbers[at + 2])
    && h.rotation == UInt8(numbers[at + 3]) && h.mandatory == UInt8(numbers[at + 4])
  }

  lemma {:induction false} NumbersAt(rows: seq<seq<int>>, i: nat, j: nat)
    requires RowsOf5(rows) && i < |rows| && j < 5
    ensures |Numbers(rows)| == 5 * |rows| && Numbers(rows)[5 * i + j] == rows[i][j]
    decreases |rows|
  {
    var init := rows[..|rows| - 1];
    if |rows| > 1 {
      NumbersAt(init, if i < |init| then i else 0, j);
    } else {
      assert init == [] && Numbers(init) == [];
    }
  }

  lemma RowNumbers(rows: seq<seq<int>>, i: nat)
    requires RowsOf5(rows) && i < |rows|
    ensures |Numbers(rows)| == 5 * |rows| && Numbers(rows)[5 * i..5 * i + 5] == rows[i]
  {
    NumbersAt(rows, i, 0);
    NumbersAt(rows, i, 1);
    NumbersAt(rows, i, 2);
    NumbersAt(rows, i, 3);
    NumbersAt(rows, i, 4);
  }

  lemma NumbersCount(rows: seq<seq<int>>)
    requires RowsOf5(rows)
    ensures |Numbers(rows)| == 5 * |rows|
  {
    if rows != [] {
      NumbersAt(rows, 0, 0);
    }
  }

  /** What the engine keeps of a piece. */
  predicate KeepsPiece(p: Part, id: int, q: Quad) {
    && p.id == id && p.rotation == 0
    && p.top == q[TOP] && p.right == q[RIGHT] && p.bottom == q[BOTTOM] && p.left == q[LEFT]
  }

  predicate Narrow(count: nat, pieces: Pieces) {
    count < 32768 && forall p, side :: p in pieces && 0 <= side < 4 ==> 0 <= pieces[p][side] < 128
  }

  /** Written and read by the engine, each piece has its own number and shows its own colours on its own sides. */
  method EngineReadsPieces(count: nat, pieces: Pieces) returns (ok: bool, parts: array<Part>)
    requires (forall p :: p in pieces <==> 1 <= p <= count) && Narrow(count, pieces)
    ensures ok && parts.Length == count + 1 && forall p :: 1 <= p <= count ==> KeepsPiece(parts[p], p, pieces[p])
  {
    var f := WritePieces(count, pieces);
    assert RowsOf5(f.rows);
    NumbersCount(f.rows);
    ok, parts := ReadParts(f.header, Numbers(f.rows));
    forall p | 1 <= p <= count ensures KeepsPiece(parts[p], p, pieces[p]) {
      assert IsPart(parts[p], Numbers(f.rows), 5 * (p - 1));
      PieceNumbers(f, count, pieces, p);
      assert p in pieces;
    }
  }

  lemma PieceNumbers(f: File, count: nat, pieces: Pieces, p: int)
    requires (forall p :: p in pieces <==> 1 <= p <= count) && 1 <= p <= count
    requires |f.rows| == count && RowsOf5(f.rows) && f.rows[p - 1] == PieceRow(p, pieces[p])
    ensures |Numbers(f.rows)| == 5 * count
    ensures Numbers(f.rows)[5 * (p - 1)..5 * (p - 1) + 5] == PieceRow(p, pieces[p])
  {
    RowNumbers(f.rows, p - 1);
  }

  /** A hint places the right piece of the board; only the centre one is mandatory. */
  predicate KeepsHint(h: BoardIndex, n: nat, board: Grid, i: nat)
    requires i < 5 && HintPositions(n)[i] in board
  {
    var c := HintPositions(n)[i];
    h.x == c.x && h.y == c.y && Placed(h.id, h.rotation) == board[c] && h.mandatory == if i == 0 then 1 else 0
  }

  /** Written and read by the engine, the hints are those of the planted board. */
  method EngineReadsHints(n: nat, board: Grid, count: nat) returns (written: bool, ok: bool, hints: array<BoardIndex>)
    requires 3 <= n < 180 && forall c :: InGrid(c, n) ==> c in board
    requires forall c :: c in board ==> 1 <= board[c].id <= n * n && 0 <= board[c].rot < 4
    ensures written <==> count == 0 || n == 3 || n >= 7
    ensures written ==> ok && hints.Length == if count < 5 then count else 5
    ensures written ==> forall i :: 0 <= i < hints.Length ==> HintPositions(n)[i] in board && KeepsHint(hints[i], n, board, i)
  {
    var file := BuildHints(n, board, count);
    written := file.Some?;
    if !written {
      ok, hints := ReadIndices(0, []);
      return;
    }
    var f := file.value;
    assert RowsOf5(f.rows);
    NumbersCount(f.rows);
    ok, hints := ReadIndices(f.header, Numbers(f.rows));
    forall i | 0 <= i < hints.Length ensures HintPositions(n)[i] in board && KeepsHint(hints[i], n, board, i) {
      HintKept(hints[i], f, n, board, i);
    }
  }

  lemma SmallBoard(n: nat, id: int)
    requires n < 180 && 1 <= id <= n * n
    ensures id < 32768
  {
    assert n * n <= 179 * 179;
  }

  lemma HintKept(h: BoardIndex, f: File, n: nat, board: Grid, i: nat)
    requires 3 <= n < 180 && i < |f.rows| <= 5 && RowsOf5(f.rows) && HintPositions(n)[i] in board
    requires f.rows[i] == HintRow(board, HintPositions(n)[i], i == 0) && IsIndex(h, Numbers(f.rows), 5 * i)
    requires 1 <= board[HintPositions(n)[i]].id <= n * n && 0 <= board[HintPositions(n)[i]].rot < 4
    ensures KeepsHint(h, n, board, i)
  {
    var c, row := HintPositions(n)[i], Numbers(f.rows)[5 * i..5 * i + 5];
    HintNumbers(f, n, board, i);
    SmallBoard(n, board[c].id);
    assert InGrid(c, n);
    assert h.id == Int16(row[0]) && h.x == UInt8(row[1]) && h.y == UInt8(row[2]) && h.rotation == UInt8(row[3])
        && h.mandatory == UInt8(row[4]);
  }

  lemma HintNumbers(f: File, n: nat, board: Grid, i: nat)
    requires i < |f.rows| <= 5 && RowsOf5(f.rows) && HintPositions(n)[i] in board
    requires f.rows[i] == HintRow(board, HintPositions(n)[i], i == 0)
    ensures |Numbers(f.rows)| == 5 * |f.rows|
    ensures Numbers(f.rows)[5 * i..5 * i + 5] == HintRow(board, HintPositions(n)[i], i == 0)
  {
    RowNumbers(f.rows, i);
  }

  /** On the official size the hints are the official ones: the centre first, then the four inner corners. */
  lemma OfficialHints()
    ensures HintPositions(16) == [Cell(7, 8), Cell(2, 2), Cell(13, 2), Cell(2, 13), Cell(13, 13)]
  {
  }

  /** The lines as the validator names their columns: identifier, top, right, bottom, left. */
  function Parsed(rows: seq<seq<int>>): (lines: seq<Line>)
    requires RowsOf5(rows)
    ensures |lines| == |rows|
  {
    seq(|rows|, i requires 0 <= i < |rows| => Line(rows[i][0], [rows[i][1], rows[i][2], rows[i][3], rows[i][4]]))
  }

  /** The validator takes the left column for the right one, and accepts the file all the same. */
  lemma ValidatorAccepts(n: nat, board: Grid, pieces: Pieces, f: File)
    requires n >= 2 && Planted(n, board, pieces) && PieceFileOf(f, n * n, pieces)
    ensures RowsOf5(f.rows) && TopologySound(Parsed(f.rows), n) && PairingSound(Parsed(f.rows))
    ensures forall i :: 0 <= i < |f.rows| ==>
      var q, seen := pieces[i + 1], Parsed(f.rows)[i].faces;
      seen[TOP] == q[TOP] && seen[BOTTOM] == q[BOTTOM] && seen[RIGHT] == q[LEFT] && seen[LEFT] == q[RIGHT]
  {
    GeneratedValidates(n, board, pieces);
    forall i | 0 <= i < |f.rows| ensures Parsed(f.rows)[i] == LinesOf(n * n, pieces)[i] {
      var q := pieces[i + 1];
      assert Parsed(f.rows)[i].faces == Mirror(q);
    }
    assert Parsed(f.rows) == LinesOf(n * n, pieces);
  }
}
