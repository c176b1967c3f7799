/**
 What the CNF of `tools/root_to_cnf.py` is meant to say: the candidate filter, the edge domains,
 the placement and colour variables, and the proof that an assignment meets the stated constraints
 exactly when it describes a way to fill the empty cells.
 */
module CompletionCnf {
  import opened Puzzle

  /** The question asked: a partial board, and whether grey is refused between two empty cells. */
  datatype Root = Root(size: nat, pieces: Pieces, board: Grid, forbid: bool)

  /** `x[c][p][r]`: this piece, so turned, on this empty cell. */
  datatype Slot = Slot(cell: Cell, placed: Placed)

  /** A free edge, named from its left or upper cell. */
  datatype Edge = Edge(cell: Cell, side: int)

  /** `e[edge][colour]`. */
  datatype Tint = Tint(edge: Edge, colour: int)

  datatype Wanted = Imposed(colour: int) | Open

  predicate WellKeyed(rt: Root) { Known(rt.pieces, rt.board) }

  predicate IsEmpty(rt: Root, c: Cell) { InGrid(c, rt.size) && c !in rt.board }

  predicate IsFree(rt: Root, p: int) { p in rt.pieces && p !in Ids(rt.board) }

  /** The edge on this side separates two empty cells. */
  predicate FreeSide(rt: Root, c: Cell, side: int) {
    0 <= side < 4 && IsEmpty(rt, c) && IsEmpty(rt, Neighbour(c, side))
  }

  predicate IsFreeEdge(rt: Root, e: Edge) { (e.side == RIGHT || e.side == BOTTOM) && FreeSide(rt, e.cell, e.side) }

  /** The canonical name of the edge on side `side` of `c`. */
  function EdgeOf(c: Cell, side: int): Edge {
    if side == RIGHT || side == BOTTOM then Edge(c, side)
    else Edge(Neighbour(c, side), if side == LEFT then RIGHT else BOTTOM)
  }

  /** The colour a side must show because of the frame or of a placed neighbour. */
  function SideWanted(rt: Root, c: Cell, side: int): Wanted
    requires WellKeyed(rt) && 0 <= side < 4
  {
    var nb := Neighbour(c, side);
    if !InGrid(nb, rt.size) then Imposed(GREY)
    else if nb in rt.board then Imposed(Face(rt.pieces, rt.board, nb, Opposite(side)))
    else Open
  }

  function PlacedFaces(rt: Root, pl: Placed): Quad
    requires pl.id in rt.pieces
  {
    Faces(rt.pieces[pl.id], pl.rot)
  }

  predicate Accepts(rt: Root, w: Wanted, colour: int) {
    match w
    case Imposed(k) => colour == k
    case Open => !(rt.forbid && colour == GREY)
  }

  /** `r` is the first rotation that shows these faces. */
  predicate FirstRotation(q: Quad, r: int) {
    0 <= r < 4 && forall r' :: 0 <= r' < r ==> Faces(q, r') != Faces(q, r)
  }

  predicate Candidate(rt: Root, c: Cell, pl: Placed)
    requires WellKeyed(rt)
  {
    && IsEmpty(rt, c) && IsFree(rt, pl.id) && FirstRotation(rt.pieces[pl.id], pl.rot)
    && forall side :: 0 <= side < 4 ==> Accepts(rt, SideWanted(rt, c, side), PlacedFaces(rt, pl)[side])
  }

  /** Some candidate of cell `c` shows `colour` on this side. */
  ghost predicate CanShow(rt: Root, c: Cell, side: int, colour: int)
    requires WellKeyed(rt) && 0 <= side < 4
  {
    exists pl :: Candidate(rt, c, pl) && PlacedFaces(rt, pl)[side] == colour
  }

  ghost predicate InDomain(rt: Root, e: Edge, colour: int)
    requires WellKeyed(rt) && 0 <= e.side < 4
  {
    CanShow(rt, e.cell, e.side, colour) && CanShow(rt, Neighbour(e.cell, e.side), Opposite(e.side), colour)
  }

  /** A candidate that survives the single domain pass. */
  ghost predicate Kept(rt: Root, s: Slot)
    requires WellKeyed(rt)
  {
    && Candidate(rt, s.cell, s.placed)
    && forall side :: FreeSide(rt, s.cell, side) ==>
         InDomain(rt, EdgeOf(s.cell, side), PlacedFaces(rt, s.placed)[side])
  }

  /** Some candidate of the cell on this side shows the placement the colour it shows there. */
  ghost predicate Supported(rt: Root, s: Slot, side: int)
    requires WellKeyed(rt) && Candidate(rt, s.cell, s.placed) && 0 <= side < 4
  {
    exists pl :: Candidate(rt, Neighbour(s.cell, side), pl) && PlacedFaces(rt, pl)[Opposite(side)] == PlacedFaces(rt, s.placed)[side]
  }

  /** The pass keeps exactly the candidates that a candidate of each empty neighbour can meet. */
  lemma KeptExact(rt: Root, s: Slot)
    requires WellKeyed(rt) && Candidate(rt, s.cell, s.placed)
    ensures Kept(rt, s) <==> forall side :: FreeSide(rt, s.cell, side) ==> Supported(rt, s, side)
  {
    forall side | FreeSide(rt, s.cell, side)
      ensures InDomain(rt, EdgeOf(s.cell, side), PlacedFaces(rt, s.placed)[side]) <==> Supported(rt, s, side)
    {
      DomainSupports(rt, s, side);
    }
  }

  lemma DomainSupports(rt: Root, s: Slot, side: int)
    requires WellKeyed(rt) && Candidate(rt, s.cell, s.placed) && FreeSide(rt, s.cell, side)
    ensures InDomain(rt, EdgeOf(s.cell, side), PlacedFaces(rt, s.placed)[side]) <==> Supported(rt, s, side)
  {
    var colour, e := PlacedFaces(rt, s.placed)[side], EdgeOf(s.cell, side);
    assert CanShow(rt, s.cell, side, colour);
    if side == LEFT || side == TOP {
      assert e.cell == Neighbour(s.cell, side) && e.side == Opposite(side);
      assert Neighbour(e.cell, e.side) == s.cell && Opposite(e.side) == side;
    }
  }

  // ------------------------------------------------------------------
  // Fillings
  // ------------------------------------------------------------------

  function FreeIds(rt: Root): set<int> { rt.pieces.Keys - Ids(rt.board) }

  /** `sol` puts every free piece on one empty cell, fills them all, and fits the frame, the board and itself. */
  ghost predicate Fills(rt: Root, sol: Grid)
    requires WellKeyed(rt)
  {
    && (forall c :: c in sol <==> IsEmpty(rt, c))
    && Ids(sol) == FreeIds(rt) && DistinctIds(sol)
    && (forall c :: c in sol ==> 0 <= sol[c].rot < 4)
    && Known(rt.pieces, rt.board + sol)
    && forall c, side :: c in sol && 0 <= side < 4 ==> SideFits(rt.size, rt.pieces, rt.board + sol, c, side)
  }

  ghost predicate NoGreyBetween(rt: Root, sol: Grid)
    requires forall c :: c in sol <==> IsEmpty(rt, c)
    requires Known(rt.pieces, sol)
  {
    forall c, side :: FreeSide(rt, c, side) ==> Face(rt.pieces, sol, c, side) != GREY
  }

  /** The fillings the formula is about. */
  ghost predicate Wants(rt: Root, sol: Grid)
    requires WellKeyed(rt)
  {
    Fills(rt, sol) && (rt.forbid ==> Known(rt.pieces, sol) && NoGreyBetween(rt, sol))
  }

  // ------------------------------------------------------------------
  // Variables and the statement of the formula
  // ------------------------------------------------------------------

  /** One placement variable per kept slot, one colour variable per colour of a free edge's domain. */
  ghost predicate TableKeys(rt: Root, xvar: map<Slot, nat>, evar: map<Tint, nat>)
    requires WellKeyed(rt)
  {
    && (forall s :: s in xvar <==> Kept(rt, s))
    && (forall t :: t in evar <==> IsFreeEdge(rt, t.edge) && InDomain(rt, t.edge, t.colour))
  }

  /** All variables are distinct and lie in `1 .. base`. */
  ghost predicate Numbered(xvar: map<Slot, nat>, evar: map<Tint, nat>, base: nat) {
    && (forall s :: s in xvar ==> 1 <= xvar[s] <= base)
    && (forall t :: t in evar ==> 1 <= evar[t] <= base)
    && (forall s, s' :: s in xvar && s' in xvar && xvar[s] == xvar[s'] ==> s == s')
    && (forall t, t' :: t in evar && t' in evar && evar[t] == evar[t'] ==> t == t')
    && (forall s, t :: s in xvar && t in evar ==> xvar[s] != evar[t])
  }

  /** The variable of `item` exists and is true. */
  predicate On<T>(m: set<int>, v: map<T, nat>, item: T) { item in v && v[item] in m }

  ghost predicate CellFilled(m: set<int>, xvar: map<Slot, nat>, c: Cell) { exists s :: On(m, xvar, s) && s.cell == c }

  ghost predicate PieceUsed(m: set<int>, xvar: map<Slot, nat>, p: int) { exists s :: On(m, xvar, s) && s.placed.id == p }

  ghost predicate EdgeTinted(m: set<int>, evar: map<Tint, nat>, e: Edge) { exists t :: On(m, evar, t) && t.edge == e }

  ghost predicate CellsFilled(rt: Root, m: set<int>, xvar: map<Slot, nat>) {
    forall c :: IsEmpty(rt, c) ==> CellFilled(m, xvar, c)
  }

  ghost predicate PiecesUsed(rt: Root, m: set<int>, xvar: map<Slot, nat>) {
    forall p :: IsFree(rt, p) ==> PieceUsed(m, xvar, p)
  }

  ghost predicate EdgesTinted(rt: Root, m: set<int>, evar: map<Tint, nat>) {
    forall e :: IsFreeEdge(rt, e) ==> EdgeTinted(m, evar, e)
  }

  ghost predicate OneSlotPerCell(m: set<int>, xvar: map<Slot, nat>) {
    forall s, t :: On(m, xvar, s) && On(m, xvar, t) && s.cell == t.cell ==> s == t
  }

  ghost predicate OneSlotPerPiece(m: set<int>, xvar: map<Slot, nat>) {
    forall s, t :: On(m, xvar, s) && On(m, xvar, t) && s.placed.id == t.placed.id ==> s == t
  }

  ghost predicate OneTintPerEdge(m: set<int>, evar: map<Tint, nat>) {
    forall t, u :: On(m, evar, t) && On(m, evar, u) && t.edge == u.edge ==> t == u
  }

  predicate SlotsKnown(rt: Root, xvar: map<Slot, nat>) { forall s :: s in xvar ==> s.placed.id in rt.pieces }

  function ShownTint(rt: Root, s: Slot, side: int): Tint
    requires s.placed.id in rt.pieces && 0 <= side < 4
  {
    Tint(EdgeOf(s.cell, side), PlacedFaces(rt, s.placed)[side])
  }

  ghost predicate PlacementsTint(rt: Root, m: set<int>, xvar: map<Slot, nat>, evar: map<Tint, nat>)
    requires SlotsKnown(rt, xvar)
  {
    forall s, side :: On(m, xvar, s) && FreeSide(rt, s.cell, side) ==> On(m, evar, ShownTint(rt, s, side))
  }

  /**
   The clauses, read on the placement and colour variables: one piece per empty cell, one cell per
   free piece, one colour per free edge, and every placement implies the colours it shows.
   */
  ghost predicate Stated(rt: Root, m: set<int>, xvar: map<Slot, nat>, evar: map<Tint, nat>)
    requires SlotsKnown(rt, xvar)
  {
    && CellsFilled(rt, m, xvar) && OneSlotPerCell(m, xvar)
    && PiecesUsed(rt, m, xvar) && OneSlotPerPiece(m, xvar)
    && EdgesTinted(rt, m, evar) && OneTintPerEdge(m, evar)
    && PlacementsTint(rt, m, xvar, evar)
  }

  /** The placements a model selects, as the verifier reads them back. */
  ghost function Decode(xvar: map<Slot, nat>, m: set<int>): Grid {
    var cells := set s | s in xvar && xvar[s] in m :: s.cell;
    map c | c in cells :: var s :| On(m, xvar, s) && s.cell == c; s.placed
  }

  /** With one slot per cell, decoding is the graph of the true placement variables. */
  lemma DecodeExact(xvar: map<Slot, nat>, m: set<int>)
    requires OneSlotPerCell(m, xvar)
    ensures forall s :: On(m, xvar, s) <==> s.cell in Decode(xvar, m) && Decode(xvar, m)[s.cell] == s.placed
  {
    var sol := Decode(xvar, m);
    forall s ensures On(m, xvar, s) <==> s.cell in sol && sol[s.cell] == s.placed {
      if On(m, xvar, s) {
        var t := Slot(s.cell, sol[s.cell]);
        assert On(m, xvar, t);
      }
      if s.cell in sol && sol[s.cell] == s.placed {
        var t :| On(m, xvar, t) && t.cell == s.cell && t.placed == sol[s.cell];
        assert t == s;
      }
    }
  }

  lemma EdgeShared(c: Cell, side: int)
    requires 0 <= side < 4
    ensures EdgeOf(c, side) == EdgeOf(Neighbour(c, side), Opposite(side))
    ensures EdgeOf(c, side).side == RIGHT || EdgeOf(c, side).side == BOTTOM
  {
  }

  // ------------------------------------------------------------------
  // From an assignment to a filling
  // ------------------------------------------------------------------

  /** A candidate's side fits when the neighbouring empty cell, if any, shows the same colour. */
  lemma CandidateFits(rt: Root, sol: Grid, c: Cell, side: int)
    requires WellKeyed(rt) && c in sol && 0 <= side < 4 && Candidate(rt, c, sol[c])
    requires Known(rt.pieces, rt.board + sol)
    requires forall d :: d in sol <==> IsEmpty(rt, d)
    requires FreeSide(rt, c, side) ==>
      Neighbour(c, side) in sol && sol[Neighbour(c, side)].id in rt.pieces
      && PlacedFaces(rt, sol[Neighbour(c, side)])[Opposite(side)] == PlacedFaces(rt, sol[c])[side]
    ensures SideFits(rt.size, rt.pieces, rt.board + sol, c, side)
  {
    var nb := Neighbour(c, side);
    assert Accepts(rt, SideWanted(rt, c, side), PlacedFaces(rt, sol[c])[side]);
    assert (rt.board + sol)[c] == sol[c];
    if InGrid(nb, rt.size) && nb in rt.board {
      assert (rt.board + sol)[nb] == rt.board[nb];
    }
  }

  /** Two neighbouring placements tint their common edge with one colour. */
  lemma TintsMatch(rt: Root, m: set<int>, xvar: map<Slot, nat>, evar: map<Tint, nat>, s: Slot, t: Slot, side: int)
    requires SlotsKnown(rt, xvar) && PlacementsTint(rt, m, xvar, evar) && OneTintPerEdge(m, evar)
    requires On(m, xvar, s) && On(m, xvar, t) && FreeSide(rt, s.cell, side) && t.cell == Neighbour(s.cell, side)
    ensures PlacedFaces(rt, t.placed)[Opposite(side)] == PlacedFaces(rt, s.placed)[side]
  {
    NeighbourBack(s.cell, side);
    EdgeShared(s.cell, side);
    assert FreeSide(rt, t.cell, Opposite(side));
    assert On(m, evar, ShownTint(rt, s, side)) && On(m, evar, ShownTint(rt, t, Opposite(side)));
  }

  lemma DecodedCells(rt: Root, m: set<int>, xvar: map<Slot, nat>, evar: map<Tint, nat>)
    requires WellKeyed(rt) && SlotsKnown(rt, xvar) && Stated(rt, m, xvar, evar)
    requires forall s :: s in xvar ==> IsEmpty(rt, s.cell)
    ensures forall c :: c in Decode(xvar, m) <==> IsEmpty(rt, c)
  {
    DecodeExact(xvar, m);
    var sol := Decode(xvar, m);
    forall c ensures c in sol <==> IsEmpty(rt, c) {
      if c in sol {
        assert On(m, xvar, Slot(c, sol[c]));
      }
      if IsEmpty(rt, c) {
        assert CellFilled(m, xvar, c);
      }
    }
  }

  lemma DecodedIds(rt: Root, m: set<int>, xvar: map<Slot, nat>, evar: map<Tint, nat>)
    requires WellKeyed(rt) && SlotsKnown(rt, xvar) && Stated(rt, m, xvar, evar)
    requires forall s :: s in xvar ==> IsFree(rt, s.placed.id)
    ensures Ids(Decode(xvar, m)) == FreeIds(rt) && DistinctIds(Decode(xvar, m))
  {
    DecodeExact(xvar, m);
    var sol := Decode(xvar, m);
    forall c | c in sol ensures IsFree(rt, sol[c].id) {
      assert On(m, xvar, Slot(c, sol[c]));
    }
    forall p | p in FreeIds(rt) ensures p in Ids(sol) {
      assert IsFree(rt, p) && PieceUsed(m, xvar, p);
    }
    forall c, d | c in sol && d in sol && sol[c].id == sol[d].id ensures c == d {
      assert On(m, xvar, Slot(c, sol[c])) && On(m, xvar, Slot(d, sol[d]));
    }
  }

  lemma DecodedFits(rt: Root, m: set<int>, xvar: map<Slot, nat>, evar: map<Tint, nat>, c: Cell, side: int)
    requires WellKeyed(rt) && SlotsKnown(rt, xvar) && Stated(rt, m, xvar, evar)
    requires c in Decode(xvar, m) && 0 <= side < 4 && Candidate(rt, c, Decode(xvar, m)[c])
    requires Known(rt.pieces, rt.board + Decode(xvar, m))
    requires forall d :: d in Decode(xvar, m) <==> IsEmpty(rt, d)
    ensures SideFits(rt.size, rt.pieces, rt.board + Decode(xvar, m), c, side)
  {
    DecodeExact(xvar, m);
    var sol := Decode(xvar, m);
    if FreeSide(rt, c, side) {
      var nb := Neighbour(c, side);
      TintsMatch(rt, m, xvar, evar, Slot(c, sol[c]), Slot(nb, sol[nb]), side);
    }
    CandidateFits(rt, sol, c, side);
  }

  ghost predicate AllCandidates(rt: Root, sol: Grid)
    requires WellKeyed(rt)
  {
    forall c :: c in sol ==> Candidate(rt, c, sol[c])
  }

  lemma CandidatesAvoidGrey(rt: Root, sol: Grid)
    requires WellKeyed(rt) && AllCandidates(rt, sol) && rt.forbid && Known(rt.pieces, sol)
    requires forall c :: c in sol <==> IsEmpty(rt, c)
    ensures NoGreyBetween(rt, sol)
  {
    forall c, side | FreeSide(rt, c, side) ensures Face(rt.pieces, sol, c, side) != GREY {
      assert Accepts(rt, SideWanted(rt, c, side), PlacedFaces(rt, sol[c])[side]);
    }
  }

  lemma DecodedCandidates(rt: Root, m: set<int>, xvar: map<Slot, nat>)
    requires WellKeyed(rt) && OneSlotPerCell(m, xvar)
    requires forall s :: s in xvar ==> Candidate(rt, s.cell, s.placed)
    ensures AllCandidates(rt, Decode(xvar, m))
  {
    var sol := Decode(xvar, m);
    DecodeExact(xvar, m);
    forall c | c in sol ensures Candidate(rt, c, sol[c]) {
      assert On(m, xvar, Slot(c, sol[c]));
    }
  }

  lemma DecodedAllFit(rt: Root, m: set<int>, xvar: map<Slot, nat>, evar: map<Tint, nat>)
    requires WellKeyed(rt) && SlotsKnown(rt, xvar) && Stated(rt, m, xvar, evar)
    requires AllCandidates(rt, Decode(xvar, m)) && Known(rt.pieces, rt.board + Decode(xvar, m))
    requires forall d :: d in Decode(xvar, m) <==> IsEmpty(rt, d)
    ensures forall c, side :: c in Decode(xvar, m) && 0 <= side < 4 ==>
      SideFits(rt.size, rt.pieces, rt.board + Decode(xvar, m), c, side)
  {
    forall c, side | c in Decode(xvar, m) && 0 <= side < 4
      ensures SideFits(rt.size, rt.pieces, rt.board + Decode(xvar, m), c, side)
    {
      DecodedFits(rt, m, xvar, evar, c, side);
    }
  }

  lemma DecodedKnown(rt: Root, sol: Grid)
    requires WellKeyed(rt) && Ids(sol) == FreeIds(rt)
    ensures Known(rt.pieces, sol) && Known(rt.pieces, rt.board + sol)
  {
    forall c | c in sol ensures sol[c].id in rt.pieces { assert sol[c].id in Ids(sol); }
  }

  /** Every assignment that meets the statement decodes to a filling that the question wants. */
  lemma StatedFills(rt: Root, m: set<int>, xvar: map<Slot, nat>, evar: map<Tint, nat>)
    requires WellKeyed(rt) && SlotsKnown(rt, xvar) && Stated(rt, m, xvar, evar)
    requires forall s :: s in xvar ==> Candidate(rt, s.cell, s.placed)
    ensures Wants(rt, Decode(xvar, m))
  {
    var sol := Decode(xvar, m);
    assert AllCandidates(rt, sol) by { DecodedCandidates(rt, m, xvar); }
    assert Ids(sol) == FreeIds(rt) && DistinctIds(sol) by { DecodedIds(rt, m, xvar, evar); }
    DecodedKnown(rt, sol);
    DecodedCells(rt, m, xvar, evar);
    DecodedAllFit(rt, m, xvar, evar);
    CandidatesWanted(rt, sol);
  }

  lemma CandidatesWanted(rt: Root, sol: Grid)
    requires WellKeyed(rt) && AllCandidates(rt, sol) && Known(rt.pieces, sol) && Known(rt.pieces, rt.board + sol)
    requires Ids(sol) == FreeIds(rt) && DistinctIds(sol)
    requires forall d :: d in sol <==> IsEmpty(rt, d)
    requires forall c, side :: c in sol && 0 <= side < 4 ==> SideFits(rt.size, rt.pieces, rt.board + sol, c, side)
    ensures Wants(rt, sol)
  {
    if rt.forbid {
      CandidatesAvoidGrey(rt, sol);
    }
  }

  // ------------------------------------------------------------------
  // From a filling to an assignment
  // ------------------------------------------------------------------

  /** The first rotation that shows the same faces as `r`. */
  function Canonical(q: Quad, r: int): (r': int)
    requires 0 <= r < 4
    ensures FirstRotation(q, r') && Faces(q, r') == Faces(q, r)
  {
    if Faces(q, 0) == Faces(q, r) then 0
    else if Faces(q, 1) == Faces(q, r) then 1
    else if Faces(q, 2) == Faces(q, r) then 2
    else 3
  }

  function SlotOf(rt: Root, sol: Grid, c: Cell): Slot
    requires c in sol && sol[c].id in rt.pieces && 0 <= sol[c].rot < 4
  {
    Slot(c, Placed(sol[c].id, Canonical(rt.pieces[sol[c].id], sol[c].rot)))
  }

  predicate SolReady(rt: Root, sol: Grid) {
    Known(rt.pieces, sol) && forall c :: c in sol ==> 0 <= sol[c].rot < 4
  }

  predicate Chosen(rt: Root, sol: Grid, s: Slot)
    requires SolReady(rt, sol)
  {
    s.cell in sol && s == SlotOf(rt, sol, s.cell)
  }

  predicate Shown(rt: Root, sol: Grid, t: Tint)
    requires SolReady(rt, sol)
  {
    t.edge.cell in sol && 0 <= t.edge.side < 4 && Face(rt.pieces, sol, t.edge.cell, t.edge.side) == t.colour
  }

  /** The assignment that describes a filling. */
  function ModelOf(rt: Root, sol: Grid, xvar: map<Slot, nat>, evar: map<Tint, nat>): set<int>
    requires SolReady(rt, sol)
  {
    (set s | s in xvar && Chosen(rt, sol, s) :: xvar[s]) + (set t | t in evar && Shown(rt, sol, t) :: evar[t])
  }

  lemma FillingReady(rt: Root, sol: Grid)
    requires WellKeyed(rt) && Fills(rt, sol)
    ensures SolReady(rt, sol)
  {
    forall c | c in sol ensures sol[c].id in rt.pieces { assert sol[c].id in Ids(sol); }
  }

  lemma FillingCandidate(rt: Root, sol: Grid, c: Cell)
    requires WellKeyed(rt) && Wants(rt, sol) && SolReady(rt, sol) && c in sol
    ensures Candidate(rt, c, SlotOf(rt, sol, c).placed)
    ensures forall side :: 0 <= side < 4 ==> PlacedFaces(rt, SlotOf(rt, sol, c).placed)[side] == Face(rt.pieces, sol, c, side)
  {
    var pl := SlotOf(rt, sol, c).placed;
    assert sol[c].id in Ids(sol);
    var full := rt.board + sol;
    forall side | 0 <= side < 4 ensures Accepts(rt, SideWanted(rt, c, side), PlacedFaces(rt, pl)[side]) {
      assert SideFits(rt.size, rt.pieces, full, c, side);
      assert full[c] == sol[c];
      var nb := Neighbour(c, side);
      if nb in rt.board && InGrid(nb, rt.size) {
        assert nb !in sol && full[nb] == rt.board[nb];
      } else if InGrid(nb, rt.size) {
        assert FreeSide(rt, c, side);
      }
    }
  }

  lemma FillingDomain(rt: Root, sol: Grid, c: Cell, side: int)
    requires WellKeyed(rt) && Wants(rt, sol) && SolReady(rt, sol) && FreeSide(rt, c, side)
    ensures c in sol && Neighbour(c, side) in sol
    ensures Face(rt.pieces, sol, Neighbour(c, side), Opposite(side)) == Face(rt.pieces, sol, c, side)
    ensures InDomain(rt, EdgeOf(c, side), Face(rt.pieces, sol, c, side))
  {
    var nb := Neighbour(c, side);
    var full := rt.board + sol;
    assert c in sol && nb in sol;
    assert SideFits(rt.size, rt.pieces, full, c, side);
    assert full[c] == sol[c] && full[nb] == sol[nb];
    NeighbourBack(c, side);
    FillingCandidate(rt, sol, c);
    FillingCandidate(rt, sol, nb);
    assert CanShow(rt, c, side, Face(rt.pieces, sol, c, side));
    assert CanShow(rt, nb, Opposite(side), Face(rt.pieces, sol, c, side));
  }

  lemma FillingKept(rt: Root, sol: Grid, c: Cell)
    requires WellKeyed(rt) && Wants(rt, sol) && SolReady(rt, sol) && c in sol
    ensures Kept(rt, SlotOf(rt, sol, c))
  {
    FillingCandidate(rt, sol, c);
    forall side | FreeSide(rt, c, side)
      ensures InDomain(rt, EdgeOf(c, side), PlacedFaces(rt, SlotOf(rt, sol, c).placed)[side])
    {
      FillingDomain(rt, sol, c, side);
    }
  }

  lemma ModelOfExact(rt: Root, sol: Grid, xvar: map<Slot, nat>, evar: map<Tint, nat>, base: nat)
    requires SolReady(rt, sol) && Numbered(xvar, evar, base)
    ensures forall s :: On(ModelOf(rt, sol, xvar, evar), xvar, s) <==> s in xvar && Chosen(rt, sol, s)
    ensures forall t :: On(ModelOf(rt, sol, xvar, evar), evar, t) <==> t in evar && Shown(rt, sol, t)
  {
    var m := ModelOf(rt, sol, xvar, evar);
    forall s | On(m, xvar, s) ensures Chosen(rt, sol, s) {
      var xs := set u | u in xvar && Chosen(rt, sol, u) :: xvar[u];
      assert xvar[s] in xs;
    }
    forall t | On(m, evar, t) ensures Shown(rt, sol, t) {
      var es := set u | u in evar && Shown(rt, sol, u) :: evar[u];
      assert evar[t] in es;
    }
  }

  lemma FillingTints(rt: Root, sol: Grid, xvar: map<Slot, nat>, evar: map<Tint, nat>, base: nat)
    requires WellKeyed(rt) && Wants(rt, sol) && SolReady(rt, sol)
    requires TableKeys(rt, xvar, evar) && Numbered(xvar, evar, base) && SlotsKnown(rt, xvar)
    ensures PlacementsTint(rt, ModelOf(rt, sol, xvar, evar), xvar, evar)
    ensures EdgesTinted(rt, ModelOf(rt, sol, xvar, evar), evar)
  {
    var m := ModelOf(rt, sol, xvar, evar);
    ModelOfExact(rt, sol, xvar, evar, base);
    forall e | IsFreeEdge(rt, e) ensures EdgeTinted(m, evar, e) {
      FillingDomain(rt, sol, e.cell, e.side);
      assert On(m, evar, Tint(e, Face(rt.pieces, sol, e.cell, e.side)));
    }
    forall s, side | On(m, xvar, s) && FreeSide(rt, s.cell, side) ensures On(m, evar, ShownTint(rt, s, side)) {
      FillingCandidate(rt, sol, s.cell);
      FillingDomain(rt, sol, s.cell, side);
      NeighbourBack(s.cell, side);
      EdgeShared(s.cell, side);
      var t := ShownTint(rt, s, side);
      assert IsFreeEdge(rt, t.edge);
      assert Shown(rt, sol, t);
    }
  }

  /** Every filling the question wants is described by an assignment that meets the statement. */
  lemma FillsStated(rt: Root, sol: Grid, xvar: map<Slot, nat>, evar: map<Tint, nat>, base: nat)
    requires WellKeyed(rt) && Wants(rt, sol) && SolReady(rt, sol)
    requires TableKeys(rt, xvar, evar) && Numbered(xvar, evar, base) && SlotsKnown(rt, xvar)
    ensures Stated(rt, ModelOf(rt, sol, xvar, evar), xvar, evar)
  {
    var m := ModelOf(rt, sol, xvar, evar);
    ModelOfExact(rt, sol, xvar, evar, base);
    FillingTints(rt, sol, xvar, evar, base);
    forall c | IsEmpty(rt, c) ensures CellFilled(m, xvar, c) {
      FillingKept(rt, sol, c);
      assert On(m, xvar, SlotOf(rt, sol, c));
    }
    forall p | IsFree(rt, p) ensures PieceUsed(m, xvar, p) {
      assert p in Ids(sol);
      var c :| c in sol && sol[c].id == p;
      FillingKept(rt, sol, c);
      assert On(m, xvar, SlotOf(rt, sol, c));
    }
  }

  // ------------------------------------------------------------------
  // Fillings are completions
  // ------------------------------------------------------------------

  /** On a board without contradiction, a filling completes it to a solution. */
  lemma FillingCompletes(rt: Root, sol: Grid)
    requires Consistent(rt.size, rt.pieces, rt.board) && Fills(rt, sol)
    ensures Solves(rt.size, rt.pieces, rt.board + sol) && ExtendsBoard(rt.board + sol, rt.board)
  {
    var full := rt.board + sol;
    forall c | c in full ensures InGrid(c, rt.size) && 0 <= full[c].rot < 4 {
    }
    FullIds(rt, sol);
    forall c, side | c in full && 0 <= side < 4 ensures SideFits(rt.size, rt.pieces, full, c, side) {
      if c in rt.board {
        BoardSideFits(rt, sol, c, side);
      }
    }
    assert full.Keys == GridCells(rt.size);
  }

  lemma FullIds(rt: Root, sol: Grid)
    requires Consistent(rt.size, rt.pieces, rt.board) && Fills(rt, sol)
    ensures DistinctIds(rt.board + sol) && Ids(rt.board + sol) == rt.pieces.Keys
  {
    var full := rt.board + sol;
    forall c, d | c in full && d in full && full[c].id == full[d].id ensures c == d {
      assert c in sol ==> sol[c].id in Ids(sol);
      assert d in sol ==> sol[d].id in Ids(sol);
      assert c in rt.board ==> rt.board[c].id in Ids(rt.board);
      assert d in rt.board ==> rt.board[d].id in Ids(rt.board);
    }
    forall p | p in rt.pieces ensures p in Ids(full) {
      if p in Ids(rt.board) {
        var c :| c in rt.board && rt.board[c].id == p;
        assert full[c].id == p;
      } else {
        assert p in Ids(sol);
        var c :| c in sol && sol[c].id == p;
        assert full[c].id == p;
      }
    }
  }

  lemma BoardSideFits(rt: Root, sol: Grid, c: Cell, side: int)
    requires Consistent(rt.size, rt.pieces, rt.board) && Fills(rt, sol)
    requires c in rt.board && 0 <= side < 4
    ensures SideFits(rt.size, rt.pieces, rt.board + sol, c, side)
  {
    var full := rt.board + sol;
    var nb := Neighbour(c, side);
    assert full[c] == rt.board[c];
    assert SideFits(rt.size, rt.pieces, rt.board, c, side);
    if InGrid(nb, rt.size) {
      if nb in rt.board {
        assert full[nb] == rt.board[nb];
      } else {
        NeighbourBack(c, side);
        assert SideFits(rt.size, rt.pieces, full, nb, Opposite(side));
      }
    }
  }

  function Rest(full: Grid, board: Grid): Grid { map c | c in full && c !in board :: full[c] }

  lemma RestIds(rt: Root, full: Grid)
    requires DistinctIds(full) && Ids(full) == rt.pieces.Keys && ExtendsBoard(full, rt.board)
    ensures Ids(Rest(full, rt.board)) == FreeIds(rt)
  {
    var sol := Rest(full, rt.board);
    forall p | p in Ids(sol) ensures p in FreeIds(rt) {
      var c :| c in sol && sol[c].id == p;
      assert full[c].id in Ids(full);
      assert forall d :: d in rt.board ==> full[d].id == rt.board[d].id;
    }
    forall p | p in FreeIds(rt) ensures p in Ids(sol) {
      assert p in Ids(full);
      var c :| c in full && full[c].id == p;
      assert forall d :: d in rt.board ==> full[d].id in Ids(rt.board);
      assert c in sol && sol[c].id == p;
    }
  }

  /** Conversely, a solution that extends the board fills its empty cells. */
  lemma CompletionFills(rt: Root, full: Grid)
    requires WellKeyed(rt)
    requires Solves(rt.size, rt.pieces, full) && ExtendsBoard(full, rt.board)
    ensures Fills(rt, Rest(full, rt.board)) && rt.board + Rest(full, rt.board) == full
  {
    RestIds(rt, full);
    assert rt.board + Rest(full, rt.board) == full;
  }

  /** A solution leaves as many free pieces as empty cells, so the encoder's refusal loses nothing. */
  lemma CompletionCounts(rt: Root, full: Grid)
    requires Consistent(rt.size, rt.pieces, rt.board)
    requires Solves(rt.size, rt.pieces, full) && ExtendsBoard(full, rt.board)
    ensures |FreeIds(rt)| == |GridCells(rt.size) - rt.board.Keys|
  {
    var sol := Rest(full, rt.board);
    CompletionFills(rt, full);
    assert sol.Keys == GridCells(rt.size) - rt.board.Keys;
    FillingCount(rt, sol);
  }

  lemma FillingCount(rt: Root, sol: Grid)
    requires Ids(sol) == FreeIds(rt) && DistinctIds(sol)
    ensures |sol| == |FreeIds(rt)|
  {
    IdsAtMost(sol);
    IdsAtLeast(sol);
  }

  lemma IdsAtLeast(sol: Grid)
    requires DistinctIds(sol)
    ensures |sol| <= |Ids(sol)|
  {
    var to := map c | c in sol :: sol[c].id;
    assert to.Keys == sol.Keys;
    InjectionCard(to, Ids(sol));
  }

  lemma IdsAtMost(sol: Grid)
    ensures |Ids(sol)| <= |sol|
  {
    var from := map p | p in Ids(sol) :: CellOf(sol, p);
    assert from.Keys == Ids(sol);
    InjectionCard(from, sol.Keys);
  }

  ghost function CellOf(sol: Grid, p: int): (c: Cell)
    requires p in Ids(sol)
    ensures c in sol && sol[c].id == p
  {
    var c :| c in sol && sol[c].id == p;
    c
  }

  lemma WantedCompletes(rt: Root, sol: Grid)
    requires Consistent(rt.size, rt.pieces, rt.board) && Wants(rt, sol)
    ensures HasCompletion(rt.size, rt.pieces, rt.board)
  {
    FillingCompletes(rt, sol);
  }

  lemma CompletionWanted(rt: Root, full: Grid)
    requires WellKeyed(rt) && (rt.forbid ==> GreyStructure(rt.pieces, rt.size))
    requires Solves(rt.size, rt.pieces, full) && ExtendsBoard(full, rt.board)
    ensures Wants(rt, Rest(full, rt.board))
  {
    CompletionFills(rt, full);
    if rt.forbid {
      StructureAvoidsGrey(rt, full);
    }
  }

  /** When grey is forbidden only on the strength of the grey structure, the fillings asked for are exactly the completions. */
  lemma WantedIffCompletion(rt: Root)
    requires Consistent(rt.size, rt.pieces, rt.board)
    requires rt.forbid ==> GreyStructure(rt.pieces, rt.size)
    ensures (exists sol :: Wants(rt, sol)) <==> HasCompletion(rt.size, rt.pieces, rt.board)
  {
    forall sol | Wants(rt, sol) ensures HasCompletion(rt.size, rt.pieces, rt.board) {
      WantedCompletes(rt, sol);
    }
    forall full: Grid | Solves(rt.size, rt.pieces, full) && ExtendsBoard(full, rt.board)
      ensures exists sol :: Wants(rt, sol)
    {
      CompletionWanted(rt, full);
    }
  }

  lemma StructureAvoidsGrey(rt: Root, full: Grid)
    requires Solves(rt.size, rt.pieces, full) && GreyStructure(rt.pieces, rt.size)
    requires Known(rt.pieces, Rest(full, rt.board))
    requires forall c :: c in Rest(full, rt.board) <==> IsEmpty(rt, c)
    ensures NoGreyBetween(rt, Rest(full, rt.board))
  {
    forall c, side | FreeSide(rt, c, side) ensures Face(rt.pieces, Rest(full, rt.board), c, side) != GREY {
      NoInnerGrey(rt.size, rt.pieces, full, c, side);
    }
  }
}
