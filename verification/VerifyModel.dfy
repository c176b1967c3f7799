/**
 `verify_model` of `tools/root_to_cnf.py`: re-checks a solver's answer piece by piece, independently of
 the clauses, and what it accepts compared with what the formula says.
 */
module VerifyModel {
  import opened Puzzle
  import opened CnfModel
  import opened CompletionCnf
  import opened RootToCnf

  /** One row of the variable map file: variable, cell, piece, rotation. */
  datatype Row = Row(v: int, slot: Slot)

  datatype Flaw =
    | TwoPlacements(c: Cell)
    | AlreadyPlaced(c: Cell)
    | WrongCount(n: nat)
    | PlacedTwice(p: int)
    | UnknownPiece(p: int)
    | BadRotation(c: Cell)
    | BorderColour(c: Cell, side: int)
    | MissingNeighbour(c: Cell, side: int)
    | Mismatch(c: Cell, side: int)
    | InnerGrey(c: Cell, side: int)

  /** The placements of the first `n` rows whose variable is true; a later row overwrites an earlier one. */
  function Assigned(rows: seq<Row>, m: set<int>, n: nat): Grid
    requires n <= |rows|
  {
    if n == 0 then map[]
    else if rows[n - 1].v in m then Assigned(rows, m, n - 1)[rows[n - 1].slot.cell := rows[n - 1].slot.placed]
    else Assigned(rows, m, n - 1)
  }

  /** No two true rows among the first `n` name the same cell. */
  predicate OneRowPerCell(rows: seq<Row>, m: set<int>, n: nat)
    requires n <= |rows|
  {
    forall i, j :: 0 <= i < j < n && rows[i].v in m && rows[j].v in m ==> rows[i].slot.cell != rows[j].slot.cell
  }

  lemma {:induction false} AssignedCells(rows: seq<Row>, m: set<int>, n: nat)
    requires n <= |rows|
    ensures forall c :: c in Assigned(rows, m, n) <==> exists i :: 0 <= i < n && rows[i].v in m && rows[i].slot.cell == c
  {
    if n > 0 {
      AssignedCells(rows, m, n - 1);
      forall c ensures c in Assigned(rows, m, n) <==> exists i :: 0 <= i < n && rows[i].v in m && rows[i].slot.cell == c {
        if c in Assigned(rows, m, n - 1) {
          var i :| 0 <= i < n - 1 && rows[i].v in m && rows[i].slot.cell == c;
        }
      }
    }
  }

  method ReadPlacements(rows: seq<Row>, trueLits: set<int>) returns (read: Grid, errors: seq<Flaw>)
    ensures read == Assigned(rows, trueLits, |rows|)
    ensures errors == [] <==> OneRowPerCell(rows, trueLits, |rows|)
  {
    read, errors := map[], [];
    for n := 0 to |rows|
      invariant read == Assigned(rows, trueLits, n)
      invariant errors == [] <==> OneRowPerCell(rows, trueLits, n)
    {
      if rows[n].v in trueLits {
        var c := rows[n].slot.cell;
        AssignedCells(rows, trueLits, n);
        if c in read {
          errors := errors + [TwoPlacements(c)];
        }
        read := read[c := rows[n].slot.placed];
      }
    }
  }

  /** Adds the read placements to the root's board. */
  method Overlay(board: Grid, read: Grid) returns (full: Grid, errors: seq<Flaw>)
    ensures full == board + read
    ensures errors == [] <==> forall c :: c in read ==> c !in board
  {
    full, errors := board, [];
    var rest := read.Keys;
    while rest != {}
      invariant rest <= read.Keys
      invariant forall c :: c in full <==> c in board || (c in read && c !in rest)
      invariant forall c :: c in full ==> full[c] == if c in read && c !in rest then read[c] else board[c]
      invariant errors == [] <==> forall c :: c in read && c !in rest ==> c !in board
      decreases rest
    {
      var c :| c in rest;
      if c in full {
        errors := errors + [AlreadyPlaced(c)];
      }
      full := full[c := read[c]];
      rest := rest - {c};
    }
  }

  predicate PiecesSound(pieces: Pieces, g: Grid, cells: set<Cell>)
    requires cells <= g.Keys
  {
    && (forall c, d :: c in cells && d in cells && g[c].id == g[d].id ==> c == d)
    && forall c :: c in cells ==> g[c].id in pieces && 0 <= g[c].rot < 4
  }

  /** Each piece once, known, with a rotation in range. */
  method CheckPieces(pieces: Pieces, g: Grid) returns (errors: seq<Flaw>)
    ensures errors == [] <==> PiecesSound(pieces, g, g.Keys)
  {
    errors := [];
    var seen: map<int, Cell> := map[];
    var rest := g.Keys;
    while rest != {}
      invariant rest <= g.Keys
      invariant forall p :: p in seen ==> seen[p] in g && seen[p] !in rest && g[seen[p]].id == p
      invariant forall c :: c in g && c !in rest ==> g[c].id in seen
      invariant errors == [] <==> PiecesSound(pieces, g, g.Keys - rest)
      decreases rest
    {
      var c :| c in rest;
      var p := g[c].id;
      ghost var done := g.Keys - rest;
      assert g.Keys - (rest - {c}) == done + {c};
      if p in seen {
        assert seen[p] in done && seen[p] != c;
        errors := errors + [PlacedTwice(p)];
      }
      seen := seen[p := c];
      if p !in pieces {
        errors := errors + [UnknownPiece(p)];
      } else if !(0 <= g[c].rot < 4) {
        errors := errors + [BadRotation(c)];
      }
      rest := rest - {c};
    }
    assert g.Keys - rest == g.Keys;
  }

  /** The colour test of one side; sides of unknown pieces are skipped. */
  predicate SideSound(size: nat, pieces: Pieces, g: Grid, c: Cell, side: int)
    requires c in g && 0 <= side < 4
  {
    g[c].id in pieces ==>
      var f := Face(pieces, g, c, side);
      var nb := Neighbour(c, side);
      if !InGrid(nb, size) then f == GREY
      else nb in g && (g[nb].id in pieces ==> f == Face(pieces, g, nb, Opposite(side)) && f != GREY)
  }

  method CheckSide(size: nat, pieces: Pieces, g: Grid, c: Cell, side: int) returns (errors: seq<Flaw>)
    requires c in g && 0 <= side < 4 && g[c].id in pieces
    ensures errors == [] <==> SideSound(size, pieces, g, c, side)
  {
    errors := [];
    var f := Faces(pieces[g[c].id], g[c].rot);
    var nb := Neighbour(c, side);
    if !InGrid(nb, size) {
      if f[side] != GREY {
        errors := [BorderColour(c, side)];
      }
      return;
    }
    if nb !in g {
      return [MissingNeighbour(c, side)];
    }
    if g[nb].id !in pieces {
      return;
    }
    var nf := Faces(pieces[g[nb].id], g[nb].rot)[Opposite(side)];
    if f[side] != nf {
      errors := errors + [Mismatch(c, side)];
    }
    if f[side] == GREY {
      errors := errors + [InnerGrey(c, side)];
    }
  }

  method CheckColours(size: nat, pieces: Pieces, g: Grid) returns (errors: seq<Flaw>)
    ensures errors == [] <==> forall c, side :: c in g && 0 <= side < 4 ==> SideSound(size, pieces, g, c, side)
  {
    errors := [];
    var rest := g.Keys;
    while rest != {}
      invariant rest <= g.Keys
      invariant errors == [] <==> forall c, side :: c in g && c !in rest && 0 <= side < 4 ==> SideSound(size, pieces, g, c, side)
      decreases rest
    {
      var c :| c in rest;
      if g[c].id in pieces {
        ghost var before := errors;
        for side := 0 to 4
          invariant errors == [] <==> before == [] && forall s :: 0 <= s < side ==> SideSound(size, pieces, g, c, s)
        {
          var more := CheckSide(size, pieces, g, c, side);
          errors := errors + more;
        }
      }
      rest := rest - {c};
    }
  }

  /** The checks on the overlaid board, once the rows have been read. */
  ghost predicate SoundBoard(size: nat, pieces: Pieces, full: Grid) {
    && |full| == size * size
    && PiecesSound(pieces, full, full.Keys)
    && forall c, side :: c in full && 0 <= side < 4 ==> SideSound(size, pieces, full, c, side)
  }

  /** What an accepted answer amounts to. */
  ghost predicate Acceptable(size: nat, pieces: Pieces, board: Grid, rows: seq<Row>, m: set<int>) {
    var read := Assigned(rows, m, |rows|);
    && OneRowPerCell(rows, m, |rows|)
    && (forall c :: c in read ==> c !in board)
    && SoundBoard(size, pieces, board + read)
  }

  method VerifyModel(size: nat, pieces: Pieces, board: Grid, rows: seq<Row>, trueLits: set<int>)
    returns (ok: bool, errors: seq<Flaw>)
    ensures ok <==> errors == []
    ensures ok <==> Acceptable(size, pieces, board, rows, trueLits)
  {
    var read, full;
    var flaws;
    read, errors := ReadPlacements(rows, trueLits);
    full, flaws := Overlay(board, read);
    errors := errors + flaws;
    if |full| != size * size {
      errors := errors + [WrongCount(|full|)];
    }
    flaws := CheckPieces(pieces, full);
    errors := errors + flaws;
    flaws := CheckColours(size, pieces, full);
    errors := errors + flaws;
    ok := errors == [];
  }

  // ------------------------------------------------------------------
  // What is accepted
  // ------------------------------------------------------------------

  predicate InnerGreyFree(size: nat, pieces: Pieces, g: Grid)
    requires Known(pieces, g)
  {
    forall c, side :: c in g && 0 <= side < 4 && InGrid(Neighbour(c, side), size) ==> Face(pieces, g, c, side) != GREY
  }

  predicate Inside(size: nat, g: Grid) { forall c :: c in g ==> InGrid(c, size) }

  lemma FullGrid(size: nat, g: Grid)
    requires Inside(size, g)
    ensures |g| == size * size <==> g.Keys == GridCells(size)
  {
    GridSize(size);
    SubsetCard(g.Keys, GridCells(size));
  }

  lemma AllIdsUsed(size: nat, pieces: Pieces, g: Grid)
    requires Known(pieces, g) && DistinctIds(g) && |pieces| == |g|
    ensures Ids(g) == pieces.Keys
  {
    IdsAtLeast(g);
    SubsetCard(Ids(g), pieces.Keys);
  }

  lemma SoundSolves(size: nat, pieces: Pieces, full: Grid)
    requires |pieces| == size * size && Inside(size, full) && SoundBoard(size, pieces, full)
    ensures Solves(size, pieces, full) && InnerGreyFree(size, pieces, full)
  {
    FullGrid(size, full);
    AllIdsUsed(size, pieces, full);
    forall c, side | c in full && 0 <= side < 4
      ensures SideFits(size, pieces, full, c, side)
      ensures InGrid(Neighbour(c, side), size) ==> Face(pieces, full, c, side) != GREY
    {
      assert SideSound(size, pieces, full, c, side);
    }
  }

  lemma SolvesSound(size: nat, pieces: Pieces, full: Grid)
    requires Solves(size, pieces, full) && InnerGreyFree(size, pieces, full)
    ensures SoundBoard(size, pieces, full)
  {
    FullGrid(size, full);
    forall c, side | c in full && 0 <= side < 4 ensures SideSound(size, pieces, full, c, side) {
      assert SideFits(size, pieces, full, c, side);
    }
  }

  /** With as many pieces as cells and every cell on the board, acceptance means: a solution without inner grey, read without conflict. */
  lemma AcceptableExact(size: nat, pieces: Pieces, board: Grid, rows: seq<Row>, m: set<int>)
    requires |pieces| == size * size && Inside(size, board + Assigned(rows, m, |rows|))
    ensures Acceptable(size, pieces, board, rows, m) <==>
      && OneRowPerCell(rows, m, |rows|)
      && (forall c :: c in Assigned(rows, m, |rows|) ==> c !in board)
      && Solves(size, pieces, board + Assigned(rows, m, |rows|))
      && InnerGreyFree(size, pieces, board + Assigned(rows, m, |rows|))
  {
    var full := board + Assigned(rows, m, |rows|);
    if SoundBoard(size, pieces, full) {
      SoundSolves(size, pieces, full);
    } else if Solves(size, pieces, full) && InnerGreyFree(size, pieces, full) {
      SolvesSound(size, pieces, full);
    }
  }

  /** The rows list the placement variables of an encoding, each once. */
  ghost predicate RowsOf(rows: seq<Row>, xvar: map<Slot, nat>) {
    && (forall i :: 0 <= i < |rows| ==> rows[i].slot in xvar && rows[i].v == xvar[rows[i].slot])
    && (forall s :: s in xvar ==> exists i :: 0 <= i < |rows| && rows[i].slot == s)
    && forall i, j :: 0 <= i < j < |rows| ==> rows[i].slot != rows[j].slot
  }

  predicate At(g: Grid, s: Slot) { s.cell in g && g[s.cell] == s.placed }

  predicate RowTrue(rows: seq<Row>, m: set<int>, n: nat, s: Slot)
    requires n <= |rows|
  {
    exists i :: 0 <= i < n && rows[i].slot == s && rows[i].v in m
  }

  lemma {:induction false} AssignedLookup(rows: seq<Row>, xvar: map<Slot, nat>, m: set<int>, n: nat)
    requires RowsOf(rows, xvar) && OneSlotPerCell(m, xvar) && n <= |rows|
    ensures forall s: Slot :: At(Assigned(rows, m, n), s) <==> RowTrue(rows, m, n, s)
  {
    if n > 0 {
      AssignedLookup(rows, xvar, m, n - 1);
      var before, after, last := Assigned(rows, m, n - 1), Assigned(rows, m, n), rows[n - 1];
      forall s: Slot ensures At(after, s) <==> RowTrue(rows, m, n, s) {
        assert RowTrue(rows, m, n - 1, s) ==> On(m, xvar, s);
        assert RowTrue(rows, m, n, s) <==> RowTrue(rows, m, n - 1, s) || (last.slot == s && last.v in m);
        assert last.v in m ==> On(m, xvar, last.slot);
      }
    }
  }

  lemma RowsDisagree(rows: seq<Row>, xvar: map<Slot, nat>, m: set<int>)
    requires RowsOf(rows, xvar) && OneSlotPerCell(m, xvar)
    ensures OneRowPerCell(rows, m, |rows|)
  {
    forall i, j | 0 <= i < j < |rows| && rows[i].v in m && rows[j].v in m ensures rows[i].slot.cell != rows[j].slot.cell {
      assert On(m, xvar, rows[i].slot) && On(m, xvar, rows[j].slot);
    }
  }

  /** The verifier reads back exactly the decoded placements. */
  lemma AssignedIsDecode(rows: seq<Row>, xvar: map<Slot, nat>, m: set<int>)
    requires RowsOf(rows, xvar) && OneSlotPerCell(m, xvar)
    ensures OneRowPerCell(rows, m, |rows|) && Assigned(rows, m, |rows|) == Decode(xvar, m)
  {
    RowsDisagree(rows, xvar, m);
    AssignedLookup(rows, xvar, m, |rows|);
    DecodeExact(xvar, m);
    var a, d := Assigned(rows, m, |rows|), Decode(xvar, m);
    forall s: Slot ensures At(a, s) <==> At(d, s) {
      assert RowTrue(rows, m, |rows|, s) <==> On(m, xvar, s);
    }
    forall c | c in a ensures c in d && a[c] == d[c] {
      assert At(a, Slot(c, a[c]));
    }
    forall c | c in d ensures c in a {
      assert At(d, Slot(c, d[c]));
    }
  }

  /**
   For the formula of a board without contradiction, the verifier accepts a model exactly when the
   decoded solution shows no grey between two cells.
   */
  lemma ModelAccepted(rt: Root, enc: Encoding, rows: seq<Row>, m: set<int>)
    requires Consistent(rt.size, rt.pieces, rt.board) && |rt.pieces| == rt.size * rt.size
    requires Encodes(rt, enc) && Models(m, enc.clauses) && RowsOf(rows, enc.xvar)
    ensures Solves(rt.size, rt.pieces, rt.board + Decode(enc.xvar, m))
    ensures Acceptable(rt.size, rt.pieces, rt.board, rows, m)
       <==> InnerGreyFree(rt.size, rt.pieces, rt.board + Decode(enc.xvar, m))
  {
    AssignedIsDecode(rows, enc.xvar, m);
    FillingCompletes(rt, Decode(enc.xvar, m));
    AcceptableExact(rt.size, rt.pieces, rt.board, rows, m);
  }

  /** With the grey structure no model is ever rejected. */
  lemma StructureAccepts(rt: Root, enc: Encoding, rows: seq<Row>, m: set<int>)
    requires Consistent(rt.size, rt.pieces, rt.board) && |rt.pieces| == rt.size * rt.size
    requires GreyStructure(rt.pieces, rt.size)
    requires Encodes(rt, enc) && Models(m, enc.clauses) && RowsOf(rows, enc.xvar)
    ensures Acceptable(rt.size, rt.pieces, rt.board, rows, m)
  {
    ModelAccepted(rt, enc, rows, m);
    var full := rt.board + Decode(enc.xvar, m);
    forall c, side | c in full && 0 <= side < 4 && InGrid(Neighbour(c, side), rt.size)
      ensures Face(rt.pieces, full, c, side) != GREY
    {
      NoInnerGrey(rt.size, rt.pieces, full, c, side);
    }
  }

  const BLANK: Quad := [0, 0, 0, 0]

  const BLANKS: Pieces := map[1 := BLANK, 2 := BLANK, 3 := BLANK, 4 := BLANK]

  const BLANK_BOARD: Grid :=
    map[Cell(0, 0) := Placed(1, 0), Cell(0, 1) := Placed(2, 0), Cell(1, 0) := Placed(3, 0), Cell(1, 1) := Placed(4, 0)]

  lemma BlankCells()
    ensures BLANK_BOARD.Keys == GridCells(2)
  {
    forall c: Cell ensures c in BLANK_BOARD <==> c in GridCells(2) {
      assert c == Cell(c.x, c.y);
    }
  }

  lemma BlankIds()
    ensures Known(BLANKS, BLANK_BOARD) && DistinctIds(BLANK_BOARD) && Ids(BLANK_BOARD) == BLANKS.Keys
  {
    var g := BLANK_BOARD;
    assert g[Cell(0, 0)].id in Ids(g) && g[Cell(0, 1)].id in Ids(g) && g[Cell(1, 0)].id in Ids(g) && g[Cell(1, 1)].id in Ids(g);
  }

  lemma BlankFace(c: Cell, side: int)
    requires c in BLANK_BOARD && 0 <= side < 4 && Known(BLANKS, BLANK_BOARD)
    ensures Face(BLANKS, BLANK_BOARD, c, side) == GREY
  {
    assert BLANKS[BLANK_BOARD[c].id] == BLANK;
  }

  lemma BlankSolves()
    ensures Solves(2, BLANKS, BLANK_BOARD)
  {
    BlankIds();
    BlankCells();
    forall c, side | c in BLANK_BOARD && 0 <= side < 4 ensures SideFits(2, BLANKS, BLANK_BOARD, c, side) {
      BlankFace(c, side);
      if Neighbour(c, side) in BLANK_BOARD {
        BlankFace(Neighbour(c, side), Opposite(side));
      }
    }
  }

  /**
   Without it a correct answer can be rejected: on a 2 x 2 board of blank pieces grey touches grey,
   which the verifier reports although the board is complete and correct.
   */
  lemma CorrectButRejected()
    ensures Solves(2, BLANKS, BLANK_BOARD) && !Acceptable(2, BLANKS, BLANK_BOARD, [], {})
  {
    BlankSolves();
    assert BLANK_BOARD + Assigned([], {}, 0) == BLANK_BOARD;
    assert !SideSound(2, BLANKS, BLANK_BOARD, Cell(0, 0), RIGHT);
  }
}
