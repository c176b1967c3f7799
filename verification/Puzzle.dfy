/**
 The edge-matching puzzle itself: pieces, rotations, partial boards and solutions,
 with the conventions every tool shares (`x` is the column, `y` the row, colour 0 is the frame).
 */
module Puzzle {
  const TOP := 0
  const RIGHT := 1
  const BOTTOM := 2
  const LEFT := 3
  const GREY := 0

  /** Four faces in the order top, right, bottom, left. */
  type Quad = q: seq<int> | |q| == 4 witness [0, 0, 0, 0]
  type Pieces = map<int, Quad>

  datatype Cell = Cell(x: int, y: int)
  datatype Placed = Placed(id: int, rot: int)
  type Grid = map<Cell, Placed>

  /** The faces of `orig` after `rot` quarter turns. */
  function Faces(orig: Quad, rot: int): Quad {
    [orig[-rot % 4], orig[(1 - rot) % 4], orig[(2 - rot) % 4], orig[(3 - rot) % 4]]
  }

  lemma FaceIndex(orig: Quad, rot: int, i: int)
    requires 0 <= i < 4
    ensures Faces(orig, rot)[i] == orig[(i - rot) % 4]
  {
  }

  function Opposite(side: int): int { (side + 2) % 4 }

  function Neighbour(c: Cell, side: int): Cell {
    if side == TOP then Cell(c.x, c.y - 1)
    else if side == RIGHT then Cell(c.x + 1, c.y)
    else if side == BOTTOM then Cell(c.x, c.y + 1)
    else Cell(c.x - 1, c.y)
  }

  predicate InGrid(c: Cell, size: nat) { 0 <= c.x < size && 0 <= c.y < size }

  function GridCells(size: nat): (cells: set<Cell>)
    ensures forall c :: c in cells <==> InGrid(c, size)
  {
    var cells := set x, y | 0 <= x < size && 0 <= y < size :: Cell(x, y);
    assert forall c :: InGrid(c, size) ==> c == Cell(c.x, c.y);
    cells
  }

  predicate Known(pieces: Pieces, g: Grid) { forall c :: c in g ==> g[c].id in pieces }

  /** The colour cell `c` shows on `side`. */
  function Face(pieces: Pieces, g: Grid, c: Cell, side: int): int
    requires c in g && g[c].id in pieces && 0 <= side < 4
  {
    Faces(pieces[g[c].id], g[c].rot)[side]
  }

  /** Grey towards the outside, the same colour as the neighbour's facing side inside; nothing against an empty cell. */
  predicate SideFits(size: nat, pieces: Pieces, g: Grid, c: Cell, side: int)
    requires c in g && Known(pieces, g) && 0 <= side < 4
  {
    var nb := Neighbour(c, side);
    if !InGrid(nb, size) then Face(pieces, g, c, side) == GREY
    else nb in g ==> Face(pieces, g, c, side) == Face(pieces, g, nb, Opposite(side))
  }

  predicate DistinctIds(g: Grid) { forall c, d :: c in g && d in g && g[c].id == g[d].id ==> c == d }

  /** A partial board without contradiction: known pieces used at most once, frame and adjacencies respected. */
  predicate Consistent(size: nat, pieces: Pieces, g: Grid) {
    && Known(pieces, g)
    && (forall c :: c in g ==> InGrid(c, size) && 0 <= g[c].rot < 4)
    && DistinctIds(g)
    && forall c, side :: c in g && 0 <= side < 4 ==> SideFits(size, pieces, g, c, side)
  }

  function Ids(g: Grid): (ids: set<int>)
    ensures forall c :: c in g ==> g[c].id in ids
  {
    set c | c in g :: g[c].id
  }

  /** A complete correct board that uses every piece exactly once. */
  predicate Solves(size: nat, pieces: Pieces, g: Grid) {
    && Consistent(size, pieces, g)
    && g.Keys == GridCells(size)
    && Ids(g) == pieces.Keys
  }

  predicate ExtendsBoard(full: Grid, board: Grid) { forall c :: c in board ==> c in full && full[c] == board[c] }

  ghost predicate HasCompletion(size: nat, pieces: Pieces, board: Grid) {
    exists full: Grid :: Solves(size, pieces, full) && ExtendsBoard(full, board)
  }

  // ------------------------------------------------------------------
  // Neighbours and rotations
  // ------------------------------------------------------------------

  lemma NeighbourBack(c: Cell, side: int)
    requires 0 <= side < 4
    ensures 0 <= Opposite(side) < 4 && Opposite(side) != side && Opposite(Opposite(side)) == side
    ensures Neighbour(Neighbour(c, side), Opposite(side)) == c && Neighbour(c, side) != c
  {
  }

  // ------------------------------------------------------------------
  // Counting by injections
  // ------------------------------------------------------------------

  lemma {:induction false} InjectionCard<A, B>(f: map<A, B>, into: set<B>)
    requires forall a :: a in f ==> f[a] in into
    requires forall a, b :: a in f && b in f && f[a] == f[b] ==> a == b
    ensures |f| <= |into|
    decreases |f|
  {
    if f.Keys != {} {
      var a :| a in f.Keys;
      var rest := f - {a};
      assert rest.Keys == f.Keys - {a};
      InjectionCard(rest, into - {f[a]});
    }
  }

  lemma Pick<T>(s: set<T>) returns (x: T)
    requires |s| > 0
    ensures x in s
  {
    x :| x in s;
  }

  lemma {:induction false} SubsetCard<T>(a: set<T>, b: set<T>)
    requires a <= b
    ensures |a| <= |b|
    ensures |a| == |b| ==> a == b
  {
    assert b == a + (b - a);
    assert |b| == |a| + |b - a|;
  }

  /** An injective family over `0 .. n-1` has `n` members. */
  lemma {:induction false} RangeCard<T>(n: nat, f: int -> T)
    requires forall i, j :: 0 <= i < n && 0 <= j < n && f(i) == f(j) ==> i == j
    ensures |set i | 0 <= i < n :: f(i)| == n
  {
    var all := set i | 0 <= i < n :: f(i);
    if n == 0 {
      assert all == {};
    } else {
      var rest := set i | 0 <= i < n - 1 :: f(i);
      RangeCard(n - 1, f);
      assert f(n - 1) !in rest;
      assert all == rest + {f(n - 1)};
    }
  }

  lemma {:induction false} GridCard(size: nat, k: nat)
    requires k <= size
    ensures |set c | c in GridCells(size) && c.x < k| == k * size
  {
    var all := set c | c in GridCells(size) && c.x < k;
    if k == 0 {
      assert all == {};
    } else {
      var before := set c | c in GridCells(size) && c.x < k - 1;
      var at := (y: int) => Cell(k - 1, y);
      var column := set y | 0 <= y < size :: at(y);
      GridCard(size, k - 1);
      RangeCard(size, at);
      forall c | c in all ensures c in before + column {
        assert c.x == k - 1 ==> c == at(c.y);
      }
      assert all == before + column;
      assert |all| == |before| + |column|;
      MulStep(k, size);
    }
  }

  lemma MulStep(k: int, n: int)
    ensures k * n == (k - 1) * n + n
  {
  }

  lemma GridSize(size: nat)
    ensures |GridCells(size)| == size * size
  {
    GridCard(size, size);
    assert GridCells(size) == set c | c in GridCells(size) && c.x < size;
  }

  // ------------------------------------------------------------------
  // Faces of one colour
  // ------------------------------------------------------------------

  function Is(c: int, colour: int): nat { if c == colour then 1 else 0 }

  /** How many faces have this colour. */
  function Count(q: Quad, colour: int): (n: nat)
    ensures n <= 4
  {
    Is(q[0], colour) + Is(q[1], colour) + Is(q[2], colour) + Is(q[3], colour)
  }

  function Zeros(q: Quad): nat { Count(q, GREY) }

  /** The pieces among `ids` with exactly `k` grey faces. */
  function WithZeros(pieces: Pieces, ids: set<int>, k: nat): set<int>
    requires ids <= pieces.Keys
  {
    set p | p in ids && Zeros(pieces[p]) == k
  }

  /** 4 pieces with two grey faces, 4(size-2) with one, none with three or four. */
  predicate GreyStructure(pieces: Pieces, size: nat) {
    && |WithZeros(pieces, pieces.Keys, 2)| == 4
    && |WithZeros(pieces, pieces.Keys, 1)| == 4 * (size - 2)
    && |WithZeros(pieces, pieces.Keys, 3)| == 0
    && |WithZeros(pieces, pieces.Keys, 4)| == 0
  }

  /** The faces of one colour that the pieces `ids` carry, as (piece, index). */
  function FacesOf(pieces: Pieces, ids: set<int>, colour: int): set<(int, int)>
    requires ids <= pieces.Keys
  {
    set p, i | p in ids && 0 <= i < 4 && pieces[p][i] == colour :: (p, i)
  }

  /** Those of piece `p` at indices below `n`. */
  function FacesBelow(p: int, q: Quad, n: nat, colour: int): set<(int, int)>
    requires n <= 4
  {
    set i | 0 <= i < n && q[i] == colour :: (p, i)
  }

  lemma FacesBelowStep(p: int, q: Quad, n: nat, colour: int)
    requires n < 4
    ensures |FacesBelow(p, q, n + 1, colour)| == |FacesBelow(p, q, n, colour)| + Is(q[n], colour)
  {
    var below := FacesBelow(p, q, n, colour);
    assert FacesBelow(p, q, n + 1, colour) == if q[n] == colour then below + {(p, n)} else below;
  }

  lemma FacesOfOne(pieces: Pieces, p: int, colour: int)
    requires p in pieces
    ensures |FacesOf(pieces, {p}, colour)| == Count(pieces[p], colour)
  {
    var q := pieces[p];
    assert FacesOf(pieces, {p}, colour) == FacesBelow(p, q, 4, colour);
    assert FacesBelow(p, q, 0, colour) == {};
    FacesBelowStep(p, q, 0, colour);
    FacesBelowStep(p, q, 1, colour);
    FacesBelowStep(p, q, 2, colour);
    FacesBelowStep(p, q, 3, colour);
  }

  lemma WithZerosSplit(pieces: Pieces, ids: set<int>, p: int, k: nat)
    requires ids <= pieces.Keys && p in ids
    ensures |WithZeros(pieces, ids, k)| == |WithZeros(pieces, ids - {p}, k)| + (if Zeros(pieces[p]) == k then 1 else 0)
  {
    var rest := WithZeros(pieces, ids - {p}, k);
    assert WithZeros(pieces, ids, k) == if Zeros(pieces[p]) == k then rest + {p} else rest;
  }

  lemma FacesOfStep(pieces: Pieces, ids: set<int>, p: int, colour: int)
    requires ids <= pieces.Keys && p in ids
    ensures |FacesOf(pieces, ids, colour)| == |FacesOf(pieces, ids - {p}, colour)| + Count(pieces[p], colour)
  {
    FacesOfOne(pieces, p, colour);
    var rest, one := FacesOf(pieces, ids - {p}, colour), FacesOf(pieces, {p}, colour);
    assert FacesOf(pieces, ids, colour) == rest + one;
    assert rest !! one;
  }

  /** Counting the grey faces of a set of pieces by the number each piece carries. */
  lemma {:induction false} GreyFacesCard(pieces: Pieces, ids: set<int>)
    requires ids <= pieces.Keys
    decreases |ids|
    ensures |FacesOf(pieces, ids, GREY)| ==
      |WithZeros(pieces, ids, 1)| + 2 * |WithZeros(pieces, ids, 2)|
      + 3 * |WithZeros(pieces, ids, 3)| + 4 * |WithZeros(pieces, ids, 4)|
  {
    if |ids| == 0 {
      assert FacesOf(pieces, ids, GREY) == {};
    } else {
      var p := Pick(ids);
      FacesOfStep(pieces, ids, p, GREY);
      GreyFacesCard(pieces, ids - {p});
      WithZerosSplit(pieces, ids, p, 1);
      WithZerosSplit(pieces, ids, p, 2);
      WithZerosSplit(pieces, ids, p, 3);
      WithZerosSplit(pieces, ids, p, 4);
    }
  }

  predicate LooksOut(size: nat, c: Cell, side: int) { InGrid(c, size) && !InGrid(Neighbour(c, side), size) }

  function OutwardOn(size: nat, side: int): (out: set<(Cell, int)>)
    ensures forall e :: e in out <==> e.1 == side && LooksOut(size, e.0, side)
  {
    var out := set c | c in GridCells(size) && LooksOut(size, c, side) :: (c, side);
    assert forall e: (Cell, int) :: e.1 == side ==> e == (e.0, side);
    out
  }

  /** The sides that look out of the board. */
  function OutwardSides(size: nat): (out: set<(Cell, int)>)
    ensures forall e :: e in out <==> 0 <= e.1 < 4 && LooksOut(size, e.0, e.1)
  {
    OutwardOn(size, TOP) + OutwardOn(size, RIGHT) + OutwardOn(size, BOTTOM) + OutwardOn(size, LEFT)
  }

  function BorderCell(size: nat, side: int, i: int): Cell {
    if side == TOP then Cell(i, 0)
    else if side == RIGHT then Cell(size - 1, i)
    else if side == BOTTOM then Cell(i, size - 1)
    else Cell(0, i)
  }

  lemma OutwardOnCard(size: nat, side: int)
    requires 0 <= side < 4
    ensures |OutwardOn(size, side)| == size
  {
    var at := (i: int) => (BorderCell(size, side, i), side);
    var all := set i | 0 <= i < size :: at(i);
    RangeCard(size, at);
    forall e | e in OutwardOn(size, side) ensures e in all {
      var i := if side == TOP || side == BOTTOM then e.0.x else e.0.y;
      assert 0 <= i < size && e == at(i);
    }
    forall i | 0 <= i < size ensures at(i) in OutwardOn(size, side) {
    }
    assert OutwardOn(size, side) == all;
  }

  lemma OutwardCard(size: nat)
    ensures |OutwardSides(size)| == 4 * size
  {
    var t, r, b, l := OutwardOn(size, TOP), OutwardOn(size, RIGHT), OutwardOn(size, BOTTOM), OutwardOn(size, LEFT);
    OutwardOnCard(size, TOP);
    OutwardOnCard(size, RIGHT);
    OutwardOnCard(size, BOTTOM);
    OutwardOnCard(size, LEFT);
    assert t !! r && (t + r) !! b && (t + r + b) !! l;
    assert |t + r| == |t| + |r|;
    assert |t + r + b| == |t| + |r| + |b|;
  }

  /** Which face of which unrotated piece a side of the board shows. */
  function Origin(g: Grid, c: Cell, side: int): (int, int)
    requires c in g
  {
    (g[c].id, (side - g[c].rot) % 4)
  }

  lemma OriginInjective(g: Grid, c: Cell, s: int, d: Cell, t: int)
    requires c in g && d in g && DistinctIds(g) && 0 <= s < 4 && 0 <= t < 4
    requires Origin(g, c, s) == Origin(g, d, t)
    ensures c == d && s == t
  {
  }

  predicate Shows(pieces: Pieces, g: Grid, c: Cell, side: int, colour: int) {
    c in g && g[c].id in pieces && 0 <= side < 4 && Face(pieces, g, c, side) == colour
  }

  lemma OriginColour(pieces: Pieces, g: Grid, c: Cell, side: int, colour: int)
    requires Shows(pieces, g, c, side, colour)
    ensures Origin(g, c, side) in FacesOf(pieces, pieces.Keys, colour)
  {
    FaceIndex(pieces[g[c].id], g[c].rot, side);
  }

  /** A board never shows more sides of a colour than the pieces have faces of it. */
  lemma SidesBound(pieces: Pieces, g: Grid, sides: set<(Cell, int)>, colour: int)
    requires DistinctIds(g) && Known(pieces, g)
    requires forall e :: e in sides ==> Shows(pieces, g, e.0, e.1, colour)
    ensures |sides| <= |FacesOf(pieces, pieces.Keys, colour)|
  {
    var f := map e | e in sides :: Origin(g, e.0, e.1);
    forall e | e in f ensures f[e] in FacesOf(pieces, pieces.Keys, colour) {
      OriginColour(pieces, g, e.0, e.1, colour);
    }
    forall d, e | d in f && e in f && f[d] == f[e] ensures d == e {
      OriginInjective(g, d.0, d.1, e.0, e.1);
    }
    InjectionCard(f, FacesOf(pieces, pieces.Keys, colour));
    assert f.Keys == sides;
  }

  /**
   With the grey structure, the 4*size outward sides already consume every grey face,
   so no inner side of a complete board is grey.
   */
  lemma NoInnerGrey(size: nat, pieces: Pieces, g: Grid, c: Cell, side: int)
    requires Solves(size, pieces, g) && GreyStructure(pieces, size)
    requires InGrid(c, size) && 0 <= side < 4 && InGrid(Neighbour(c, side), size)
    ensures Face(pieces, g, c, side) != GREY
  {
    var grey := FacesOf(pieces, pieces.Keys, GREY);
    assert |grey| == 4 * size by {
      GreyFacesCard(pieces, pieces.Keys);
    }
    if Shows(pieces, g, c, side, GREY) {
      var sides := OutwardSides(size) + {(c, side)};
      assert |sides| == 4 * size + 1 by {
        OutwardCard(size);
        assert (c, side) !in OutwardSides(size);
      }
      forall e | e in sides ensures Shows(pieces, g, e.0, e.1, GREY) {
        if e != (c, side) {
          OutwardIsGrey(size, pieces, g, e.0, e.1);
        }
      }
      SidesBound(pieces, g, sides, GREY);
      assert false;
    }
  }

  lemma OutwardIsGrey(size: nat, pieces: Pieces, g: Grid, c: Cell, side: int)
    requires Solves(size, pieces, g) && 0 <= side < 4 && LooksOut(size, c, side)
    ensures Shows(pieces, g, c, side, GREY)
  {
    assert SideFits(size, pieces, g, c, side);
  }
}
