/**
 The necessary conditions of `tools/validate_pieces.py`, and the proof that a solvable set is never
 rejected by them.
 */
module ValidatePieces {
  import opened Puzzle
  import opened CompletionCnf
  import opened VerifyModel

  /** A line of the data file as the validator reads it: identifier and four faces. */
  datatype Line = Line(id: int, faces: Quad)

  datatype Kind = CornerKind | EdgeKind | InnerKind | Degenerate

  /** Corner: two adjacent grey faces; edge: one; inner: none; anything else fits no position. */
  function KindOf(q: Quad): Kind {
    var nz := Zeros(q);
    if nz == 0 then InnerKind
    else if nz == 1 then EdgeKind
    else if nz == 2 && !(q[TOP] == GREY && q[BOTTOM] == GREY) && !(q[RIGHT] == GREY && q[LEFT] == GREY) then CornerKind
    else Degenerate
  }

  /** The validator reads left and right the other way round: the columns are `id top left bottom right`. */
  function Mirror(q: Quad): Quad { [q[TOP], q[LEFT], q[BOTTOM], q[RIGHT]] }

  function CountKind(lines: seq<Line>, n: nat, kind: Kind): nat
    requires n <= |lines|
  {
    if n == 0 then 0 else CountKind(lines, n - 1, kind) + (if KindOf(lines[n - 1].faces) == kind then 1 else 0)
  }

  datatype Fault =
    | BadGeometry(id: int)
    | CornerCount(found: nat)
    | EdgeCount(found: nat)
    | InnerCount(found: nat)
    | OddColour(colour: int)
    | Monopoly(id: int, colour: int)

  predicate TopologySound(lines: seq<Line>, k: nat) {
    && CountKind(lines, |lines|, Degenerate) == 0
    && CountKind(lines, |lines|, CornerKind) == 4
    && CountKind(lines, |lines|, EdgeKind) == 4 * (k - 2)
    && CountKind(lines, |lines|, InnerKind) == (k - 2) * (k - 2)
  }

  method CheckTopology(lines: seq<Line>, k: nat) returns (errors: seq<Fault>)
    ensures errors == [] <==> TopologySound(lines, k)
  {
    errors := [];
    var corners, edges, inner := 0, 0, 0;
    for n := 0 to |lines|
      invariant corners == CountKind(lines, n, CornerKind) && edges == CountKind(lines, n, EdgeKind)
      invariant inner == CountKind(lines, n, InnerKind)
      invariant errors == [] <==> CountKind(lines, n, Degenerate) == 0
    {
      var f := lines[n].faces;
      var zeroIndices: seq<int> := [];
      for i := 0 to 4
        invariant |zeroIndices| == CountBelow(f, i, GREY)
        invariant forall d :: 0 <= d < |zeroIndices| ==> 0 <= zeroIndices[d] < i && f[zeroIndices[d]] == GREY
        invariant forall d, e :: 0 <= d < e < |zeroIndices| ==> zeroIndices[d] < zeroIndices[e]
      {
        if f[i] == GREY {
          zeroIndices := zeroIndices + [i];
        }
      }
      var nz := |zeroIndices|;
      assert nz == Zeros(f);
      if nz == 0 {
        inner := inner + 1;
      } else if nz == 1 {
        edges := edges + 1;
      } else if nz == 2 {
        if Opposite(zeroIndices[0]) == zeroIndices[1] {
          assert KindOf(f) == Degenerate;
          errors := errors + [BadGeometry(lines[n].id)];
        } else {
          assert KindOf(f) == CornerKind;
          corners := corners + 1;
        }
      } else {
        errors := errors + [BadGeometry(lines[n].id)];
      }
    }
    if corners != 4 {
      errors := errors + [CornerCount(corners)];
    }
    if edges != 4 * (k - 2) {
      errors := errors + [EdgeCount(edges)];
    }
    if inner != (k - 2) * (k - 2) {
      errors := errors + [InnerCount(inner)];
    }
  }

  // ------------------------------------------------------------------
  // Colour pairing
  // ------------------------------------------------------------------

  function Total(lines: seq<Line>, n: nat, colour: int): nat
    requires n <= |lines|
  {
    if n == 0 then 0 else Total(lines, n - 1, colour) + Count(lines[n - 1].faces, colour)
  }

  /** The faces recorded per identifier: a repeated identifier keeps its last line. */
  function PerPiece(lines: seq<Line>, n: nat): map<int, Quad>
    requires n <= |lines|
  {
    if n == 0 then map[] else PerPiece(lines, n - 1)[lines[n - 1].id := lines[n - 1].faces]
  }

  predicate EvenTotals(lines: seq<Line>) {
    forall i, j :: 0 <= i < |lines| && 0 <= j < 4 && lines[i].faces[j] != GREY ==>
      Total(lines, |lines|, lines[i].faces[j]) % 2 == 0
  }

  predicate NoMonopoly(lines: seq<Line>) {
    var per := PerPiece(lines, |lines|);
    forall p :: p in per ==> PieceFair(lines, per[p], 4)
  }

  predicate PairingSound(lines: seq<Line>) { EvenTotals(lines) && NoMonopoly(lines) }

  function Get(m: map<int, nat>, c: int): nat { if c in m then m[c] else 0 }

  /** How many of the first `n` faces have this colour. */
  function CountBelow(q: Quad, n: nat, colour: int): nat
    requires n <= 4
  {
    (if n > 0 then Is(q[0], colour) else 0) + (if n > 1 then Is(q[1], colour) else 0)
    + (if n > 2 then Is(q[2], colour) else 0) + (if n > 3 then Is(q[3], colour) else 0)
  }

  /** Adds the non-grey faces of one line to the running totals. */
  method CountLine(total: map<int, nat>, f: Quad) returns (r: map<int, nat>)
    ensures forall c :: c != GREY ==> Get(r, c) == Get(total, c) + Count(f, c)
    ensures forall c :: c in r <==> c in total || (c != GREY && c in f)
  {
    r := total;
    for i := 0 to 4
      invariant forall c :: c != GREY ==> Get(r, c) == Get(total, c) + CountBelow(f, i, c)
      invariant forall c :: c in r <==> c in total || (c != GREY && c in f[..i])
    {
      if f[i] != GREY {
        r := r[f[i] := Get(r, f[i]) + 1];
      }
    }
    assert f[..4] == f;
  }

  /** The totals hold every non-grey colour that occurs, with its number of occurrences. */
  ghost predicate Tallied(lines: seq<Line>, total: map<int, nat>, n: nat)
    requires n <= |lines|
  {
    && (forall c :: c != GREY ==> Get(total, c) == Total(lines, n, c))
    && (forall c :: c in total ==> c != GREY && exists i :: 0 <= i < n && c in lines[i].faces)
    && forall i, j :: 0 <= i < n && 0 <= j < 4 && lines[i].faces[j] != GREY ==> lines[i].faces[j] in total
  }

  method Tally(lines: seq<Line>) returns (total: map<int, nat>, per: map<int, Quad>)
    ensures per == PerPiece(lines, |lines|) && Tallied(lines, total, |lines|)
  {
    total, per := map[], map[];
    for n := 0 to |lines|
      invariant per == PerPiece(lines, n) && Tallied(lines, total, n)
    {
      total := CountLine(total, lines[n].faces);
      per := per[lines[n].id := lines[n].faces];
    }
  }

  method OddColours(lines: seq<Line>, total: map<int, nat>) returns (errors: seq<Fault>)
    requires Tallied(lines, total, |lines|)
    ensures errors == [] <==> EvenTotals(lines)
  {
    errors := [];
    var colours := total.Keys;
    while colours != {}
      invariant colours <= total.Keys
      invariant errors == [] <==> forall c :: c in total && c !in colours ==> total[c] % 2 == 0
      decreases colours
    {
      ghost var some := Pick(colours);
      var c :| c in colours;
      if total[c] % 2 != 0 {
        errors := errors + [OddColour(c)];
      }
      colours := colours - {c};
    }
    TotalsEven(lines, total);
  }

  predicate PieceFair(lines: seq<Line>, q: Quad, n: nat)
    requires n <= 4
  {
    forall j :: 0 <= j < n && q[j] != GREY ==> 2 * Count(q, q[j]) <= Total(lines, |lines|, q[j])
  }

  method MonopoliesOf(lines: seq<Line>, total: map<int, nat>, p: int, q: Quad) returns (errors: seq<Fault>)
    requires Tallied(lines, total, |lines|) && exists i :: 0 <= i < |lines| && lines[i].faces == q
    ensures errors == [] <==> PieceFair(lines, q, 4)
  {
    errors := [];
    ghost var i :| 0 <= i < |lines| && lines[i].faces == q;
    for j := 0 to 4
      invariant errors == [] <==> PieceFair(lines, q, j)
    {
      var c := q[j];
      if c != GREY {
        assert lines[i].faces[j] in total && Get(total, c) == total[c];
        var mine := Count(q, c);
        var all: int := total[c];
        var others := all - mine;
        if mine > others {
          errors := errors + [Monopoly(p, c)];
        }
      }
    }
  }

  method CheckColourPairing(lines: seq<Line>) returns (errors: seq<Fault>)
    ensures errors == [] <==> PairingSound(lines)
  {
    var total, per := Tally(lines);
    errors := OddColours(lines, total);
    ghost var even := EvenTotals(lines);
    var ids := per.Keys;
    PerPieceFaces(lines, |lines|);
    while ids != {}
      invariant ids <= per.Keys
      invariant errors == [] <==> even && forall p :: p in per && p !in ids ==> PieceFair(lines, per[p], 4)
      decreases ids
    {
      ghost var some := Pick(ids);
      var p :| p in ids;
      var more := MonopoliesOf(lines, total, p, per[p]);
      errors := errors + more;
      ids := ids - {p};
    }
  }

  lemma TotalsEven(lines: seq<Line>, total: map<int, nat>)
    requires Tallied(lines, total, |lines|)
    ensures (forall c :: c in total ==> total[c] % 2 == 0) <==> EvenTotals(lines)
  {
    if EvenTotals(lines) {
      forall c | c in total ensures total[c] % 2 == 0 {
        var i :| 0 <= i < |lines| && c in lines[i].faces;
        var j :| 0 <= j < 4 && lines[i].faces[j] == c;
        assert Total(lines, |lines|, lines[i].faces[j]) % 2 == 0;
        assert Get(total, c) == total[c];
      }
    }
    forall i, j | 0 <= i < |lines| && 0 <= j < 4 && lines[i].faces[j] != GREY
      ensures Total(lines, |lines|, lines[i].faces[j]) == total[lines[i].faces[j]]
    {
      assert Get(total, lines[i].faces[j]) == total[lines[i].faces[j]];
    }
  }

  lemma {:induction false} PerPieceFaces(lines: seq<Line>, n: nat)
    requires n <= |lines|
    ensures forall p :: p in PerPiece(lines, n) ==> exists i :: 0 <= i < n && lines[i].id == p && lines[i].faces == PerPiece(lines, n)[p]
  {
    if n > 0 {
      PerPieceFaces(lines, n - 1);
      forall p | p in PerPiece(lines, n) ensures exists i :: 0 <= i < n && lines[i].id == p && lines[i].faces == PerPiece(lines, n)[p] {
        if p == lines[n - 1].id {
          assert lines[n - 1].faces == PerPiece(lines, n)[p];
        } else {
          assert p in PerPiece(lines, n - 1) && PerPiece(lines, n)[p] == PerPiece(lines, n - 1)[p];
        }
      }
    }
  }

  // ------------------------------------------------------------------
  // A solvable set passes: topology
  // ------------------------------------------------------------------

  lemma KindMirrors(q: Quad)
    ensures KindOf(Mirror(q)) == KindOf(q)
  {
  }

  lemma KindRotates(q: Quad, r: int)
    ensures KindOf(Faces(q, r)) == KindOf(q)
  {
    var k := r % 4;
    assert Faces(q, r) == Faces(q, k);
    assert k == 0 || k == 1 || k == 2 || k == 3;
  }

  /** Grey exactly where the cell looks out of the board. */
  function FrameQuad(size: nat, c: Cell): Quad {
    [if LooksOut(size, c, TOP) then GREY else 1, if LooksOut(size, c, RIGHT) then GREY else 1,
     if LooksOut(size, c, BOTTOM) then GREY else 1, if LooksOut(size, c, LEFT) then GREY else 1]
  }

  lemma SameZerosSameKind(a: Quad, b: Quad)
    requires forall i :: 0 <= i < 4 ==> (a[i] == GREY <==> b[i] == GREY)
    ensures KindOf(a) == KindOf(b)
  {
    assert (a[0] == GREY <==> b[0] == GREY) && (a[1] == GREY <==> b[1] == GREY);
    assert (a[2] == GREY <==> b[2] == GREY) && (a[3] == GREY <==> b[3] == GREY);
  }

  predicate OnEdgeX(size: nat, c: Cell) { c.x == 0 || c.x == size - 1 }

  predicate OnEdgeY(size: nat, c: Cell) { c.y == 0 || c.y == size - 1 }

  function CellKind(size: nat, c: Cell): Kind {
    if OnEdgeX(size, c) && OnEdgeY(size, c) then CornerKind
    else if OnEdgeX(size, c) || OnEdgeY(size, c) then EdgeKind
    else InnerKind
  }

  lemma FrameKind(size: nat, c: Cell)
    requires size >= 2 && InGrid(c, size)
    ensures KindOf(FrameQuad(size, c)) == CellKind(size, c)
  {
  }

  /** The sides of a placed piece are grey exactly where its cell looks out. */
  lemma PlacedFrame(size: nat, pieces: Pieces, g: Grid, c: Cell)
    requires Solves(size, pieces, g) && InnerGreyFree(size, pieces, g) && c in g
    ensures KindOf(pieces[g[c].id]) == KindOf(FrameQuad(size, c))
  {
    var shown := Faces(pieces[g[c].id], g[c].rot);
    KindRotates(pieces[g[c].id], g[c].rot);
    var frame := FrameQuad(size, c);
    assert InGrid(c, size);
    forall s | 0 <= s < 4 ensures shown[s] == GREY <==> frame[s] == GREY {
      assert SideFits(size, pieces, g, c, s);
      assert Face(pieces, g, c, s) == shown[s];
      assert frame[s] == GREY <==> LooksOut(size, c, s);
    }
    SameZerosSameKind(shown, frame);
  }

  /** A piece has the kind of the cell it lies on. */
  lemma PlacedKind(size: nat, pieces: Pieces, g: Grid, c: Cell)
    requires size >= 2 && Solves(size, pieces, g) && InnerGreyFree(size, pieces, g) && c in g
    ensures KindOf(pieces[g[c].id]) == CellKind(size, c)
  {
    PlacedFrame(size, pieces, g, c);
    FrameKind(size, c);
  }

  function CellsOf(size: nat, kind: Kind): set<Cell> { set c | c in GridCells(size) && CellKind(size, c) == kind }

  function PiecesOf(pieces: Pieces, ids: set<int>, kind: Kind): set<int>
    requires ids <= pieces.Keys
  {
    set p | p in ids && KindOf(pieces[p]) == kind
  }

  lemma PiecesAsCells(size: nat, pieces: Pieces, g: Grid, kind: Kind)
    requires size >= 2 && Solves(size, pieces, g) && InnerGreyFree(size, pieces, g)
    ensures |PiecesOf(pieces, pieces.Keys, kind)| == |CellsOf(size, kind)|
  {
    PiecesAtLeast(size, pieces, g, kind);
    CellsAtLeast(size, pieces, g, kind);
  }

  lemma PiecesAtLeast(size: nat, pieces: Pieces, g: Grid, kind: Kind)
    requires size >= 2 && Solves(size, pieces, g) && InnerGreyFree(size, pieces, g)
    ensures |CellsOf(size, kind)| <= |PiecesOf(pieces, pieces.Keys, kind)|
  {
    var there := map c | c in CellsOf(size, kind) :: g[c].id;
    forall c | c in there ensures there[c] in PiecesOf(pieces, pieces.Keys, kind) { PlacedKind(size, pieces, g, c); }
    InjectionCard(there, PiecesOf(pieces, pieces.Keys, kind));
    assert there.Keys == CellsOf(size, kind);
  }

  lemma CellsAtLeast(size: nat, pieces: Pieces, g: Grid, kind: Kind)
    requires size >= 2 && Solves(size, pieces, g) && InnerGreyFree(size, pieces, g)
    ensures |PiecesOf(pieces, pieces.Keys, kind)| <= |CellsOf(size, kind)|
  {
    var back := map p | p in PiecesOf(pieces, pieces.Keys, kind) :: CellOf(g, p);
    forall p | p in back ensures back[p] in CellsOf(size, kind) { PlacedKind(size, pieces, g, CellOf(g, p)); }
    InjectionCard(back, CellsOf(size, kind));
    assert back.Keys == PiecesOf(pieces, pieces.Keys, kind);
  }

  lemma CornerCells(size: nat)
    requires size >= 2
    ensures |CellsOf(size, CornerKind)| == 4
  {
    var corners := {Cell(0, 0), Cell(0, size - 1), Cell(size - 1, 0), Cell(size - 1, size - 1)};
    forall c ensures c in CellsOf(size, CornerKind) <==> c in corners {
      assert c == Cell(c.x, c.y);
    }
    assert CellsOf(size, CornerKind) == corners;
  }

  lemma InnerCells(size: nat)
    requires size >= 2
    ensures |CellsOf(size, InnerKind)| == (size - 2) * (size - 2)
  {
    GridSize(size - 2);
    InnerCellsAtLeast(size);
    InnerCellsAtMost(size);
  }

  lemma InnerCellsAtLeast(size: nat)
    requires size >= 2
    ensures |GridCells(size - 2)| <= |CellsOf(size, InnerKind)|
  {
    var small := GridCells(size - 2);
    var up := map c | c in small :: Cell(c.x + 1, c.y + 1);
    InjectionCard(up, CellsOf(size, InnerKind));
    assert up.Keys == small;
  }

  lemma InnerCellsAtMost(size: nat)
    requires size >= 2
    ensures |CellsOf(size, InnerKind)| <= |GridCells(size - 2)|
  {
    var down := map c | c in CellsOf(size, InnerKind) :: Cell(c.x - 1, c.y - 1);
    InjectionCard(down, GridCells(size - 2));
    assert down.Keys == CellsOf(size, InnerKind);
  }

  lemma EdgeCells(size: nat)
    requires size >= 2
    ensures |CellsOf(size, EdgeKind)| == 4 * (size - 2)
  {
    CornerCells(size);
    InnerCells(size);
    GridSize(size);
    var a, b, c := CellsOf(size, CornerKind), CellsOf(size, InnerKind), CellsOf(size, EdgeKind);
    assert GridCells(size) == a + b + c;
    assert |a + b| == |a| + |b| && |a + b + c| == |a + b| + |c|;
    SquareSplit(size);
  }

  lemma SquareSplit(n: int)
    ensures n * n == (n - 2) * (n - 2) + 4 * (n - 2) + 4
  {
  }

  /** The file lists every piece once, each as the validator reads it. */
  ghost predicate ListsPieces(lines: seq<Line>, pieces: Pieces) {
    && |lines| == |pieces|
    && (forall i, j :: 0 <= i < j < |lines| ==> lines[i].id != lines[j].id)
    && forall i :: 0 <= i < |lines| ==> lines[i].id in pieces && lines[i].faces == Mirror(pieces[lines[i].id])
  }

  function IdsBelow(lines: seq<Line>, n: nat): (ids: set<int>)
    requires n <= |lines|
    ensures forall p :: p in ids <==> exists i :: 0 <= i < n && lines[i].id == p
  {
    set i | 0 <= i < n :: lines[i].id
  }

  lemma IdsBelowStep(lines: seq<Line>, pieces: Pieces, n: nat)
    requires ListsPieces(lines, pieces) && n < |lines|
    ensures IdsBelow(lines, n + 1) == IdsBelow(lines, n) + {lines[n].id} && lines[n].id !in IdsBelow(lines, n)
    ensures IdsBelow(lines, n + 1) <= pieces.Keys
  {
  }

  lemma {:induction false} IdsBelowCard(lines: seq<Line>, pieces: Pieces, n: nat)
    requires ListsPieces(lines, pieces) && n <= |lines|
    ensures |IdsBelow(lines, n)| == n && IdsBelow(lines, n) <= pieces.Keys
  {
    if n > 0 {
      IdsBelowStep(lines, pieces, n - 1);
      IdsBelowCard(lines, pieces, n - 1);
    } else {
      assert IdsBelow(lines, 0) == {};
    }
  }

  lemma AllIds(lines: seq<Line>, pieces: Pieces)
    requires ListsPieces(lines, pieces)
    ensures IdsBelow(lines, |lines|) == pieces.Keys
  {
    IdsBelowCard(lines, pieces, |lines|);
    SubsetCard(IdsBelow(lines, |lines|), pieces.Keys);
  }

  lemma {:induction false} CountKindIds(lines: seq<Line>, pieces: Pieces, n: nat, kind: Kind)
    requires ListsPieces(lines, pieces) && n <= |lines|
    ensures IdsBelow(lines, n) <= pieces.Keys && CountKind(lines, n, kind) == |PiecesOf(pieces, IdsBelow(lines, n), kind)|
  {
    if n == 0 {
      assert IdsBelow(lines, 0) == {};
      assert PiecesOf(pieces, {}, kind) == {};
    } else {
      CountKindIds(lines, pieces, n - 1, kind);
      IdsBelowStep(lines, pieces, n - 1);
      KindMirrors(pieces[lines[n - 1].id]);
      PiecesOfStep(pieces, IdsBelow(lines, n - 1), lines[n - 1].id, kind);
    }
  }

  lemma PiecesOfStep(pieces: Pieces, ids: set<int>, p: int, kind: Kind)
    requires ids <= pieces.Keys && p in pieces && p !in ids
    ensures |PiecesOf(pieces, ids + {p}, kind)| == |PiecesOf(pieces, ids, kind)| + (if KindOf(pieces[p]) == kind then 1 else 0)
  {
    var before := PiecesOf(pieces, ids, kind);
    assert PiecesOf(pieces, ids + {p}, kind) == if KindOf(pieces[p]) == kind then before + {p} else before;
  }

  lemma CountKindPieces(lines: seq<Line>, pieces: Pieces, kind: Kind)
    requires ListsPieces(lines, pieces)
    ensures CountKind(lines, |lines|, kind) == |PiecesOf(pieces, pieces.Keys, kind)|
  {
    CountKindIds(lines, pieces, |lines|, kind);
    AllIds(lines, pieces);
  }

  /** Topology, one way: the pieces of a correct board without inner grey pass. */
  lemma SolvedTopology(size: nat, pieces: Pieces, g: Grid, lines: seq<Line>)
    requires size >= 2 && Solves(size, pieces, g) && InnerGreyFree(size, pieces, g) && ListsPieces(lines, pieces)
    ensures TopologySound(lines, size)
  {
    CornerCells(size);
    EdgeCells(size);
    InnerCells(size);
    assert CellsOf(size, Degenerate) == {};
    CountKindPieces(lines, pieces, CornerKind);
    CountKindPieces(lines, pieces, EdgeKind);
    CountKindPieces(lines, pieces, InnerKind);
    CountKindPieces(lines, pieces, Degenerate);
    PiecesAsCells(size, pieces, g, CornerKind);
    PiecesAsCells(size, pieces, g, EdgeKind);
    PiecesAsCells(size, pieces, g, InnerKind);
    PiecesAsCells(size, pieces, g, Degenerate);
  }

  /** Topology, the other way: a set that passes has the grey structure. */
  lemma TopologyStructure(size: nat, pieces: Pieces, lines: seq<Line>)
    requires ListsPieces(lines, pieces) && TopologySound(lines, size)
    ensures GreyStructure(pieces, size)
  {
    CountKindPieces(lines, pieces, CornerKind);
    CountKindPieces(lines, pieces, EdgeKind);
    CountKindPieces(lines, pieces, Degenerate);
    var ids := pieces.Keys;
    var bad := PiecesOf(pieces, ids, Degenerate);
    forall p | p in pieces ensures KindOf(pieces[p]) != Degenerate {
      if p in bad {
        SubsetCard({p}, bad);
      }
    }
    assert WithZeros(pieces, ids, 2) == PiecesOf(pieces, ids, CornerKind);
    assert WithZeros(pieces, ids, 1) == PiecesOf(pieces, ids, EdgeKind);
    assert WithZeros(pieces, ids, 3) == {};
    assert WithZeros(pieces, ids, 4) == {};
  }

  /** A one-cell board is complete and correct with one blank piece, which the topology check refuses. */
  lemma OneCellRefused(pieces: Pieces, g: Grid, lines: seq<Line>)
    requires Solves(1, pieces, g) && ListsPieces(lines, pieces)
    ensures !TopologySound(lines, 1)
  {
    if TopologySound(lines, 1) {
      TopologyStructure(1, pieces, lines);
      assert false;
    }
  }

  /** The one piece it takes: blank, and its own solution. */
  lemma OneBlankRefused()
    ensures var pieces, g: Grid, lines := map[1 := BLANK], map[Cell(0, 0) := Placed(1, 0)], [Line(1, BLANK)];
            Solves(1, pieces, g) && ListsPieces(lines, pieces) && !TopologySound(lines, 1)
  {
    var pieces: Pieces, g: Grid, lines := map[1 := BLANK], map[Cell(0, 0) := Placed(1, 0)], [Line(1, BLANK)];
    OneBlankSolves(pieces, g);
    assert lines[0].faces == Mirror(pieces[1]);
    OneCellRefused(pieces, g, lines);
  }

  lemma OneBlankSolves(pieces: Pieces, g: Grid)
    requires pieces == map[1 := BLANK] && g == map[Cell(0, 0) := Placed(1, 0)]
    ensures Solves(1, pieces, g)
  {
    forall c: Cell ensures c in g <==> c in GridCells(1) {
      assert c == Cell(c.x, c.y);
    }
    assert g[Cell(0, 0)].id in Ids(g);
    forall c, side | c in g && 0 <= side < 4 ensures SideFits(1, pieces, g, c, side) {
      assert Face(pieces, g, c, side) == GREY;
    }
  }

  /** Four blank pieces on a board of side two are a correct board, and refused for the grey inside. */
  lemma FourBlanksRefused(lines: seq<Line>)
    requires lines == [Line(1, BLANK), Line(2, BLANK), Line(3, BLANK), Line(4, BLANK)]
    ensures ListsPieces(lines, BLANKS) && Solves(2, BLANKS, BLANK_BOARD) && !TopologySound(lines, 2)
  {
    FourBlanksListed(lines, BLANKS, BLANK);
    BlankSolves();
    BlankGreyInside(BLANKS, BLANK_BOARD);
    TopologyExact(2, BLANKS, BLANK_BOARD, lines);
  }

  lemma FourBlanksListed(lines: seq<Line>, pieces: Pieces, blank: Quad)
    requires lines == [Line(1, blank), Line(2, blank), Line(3, blank), Line(4, blank)]
    requires blank == [0, 0, 0, 0] && pieces == map[1 := blank, 2 := blank, 3 := blank, 4 := blank]
    ensures ListsPieces(lines, pieces)
  {
    assert pieces.Keys == {1, 2, 3, 4};
  }

  lemma BlankGreyInside(pieces: Pieces, g: Grid)
    requires pieces == BLANKS && g == BLANK_BOARD
    ensures Known(pieces, g) && !InnerGreyFree(2, pieces, g)
  {
    BlankIds();
    assert Neighbour(Cell(0, 0), RIGHT) == Cell(1, 0);
    BlankFace(Cell(0, 0), RIGHT);
  }

  /**
   For the pieces of any complete correct board the topology check passes exactly when the board is at
   least 2 x 2 and no grey touches grey inside it.
   */
  lemma TopologyExact(size: nat, pieces: Pieces, g: Grid, lines: seq<Line>)
    requires Solves(size, pieces, g) && ListsPieces(lines, pieces)
    ensures TopologySound(lines, size) <==> size >= 2 && InnerGreyFree(size, pieces, g)
  {
    if TopologySound(lines, size) {
      TopologyStructure(size, pieces, lines);
      forall c, side | c in g && 0 <= side < 4 && InGrid(Neighbour(c, side), size) ensures Face(pieces, g, c, side) != GREY {
        NoInnerGrey(size, pieces, g, c, side);
      }
    }
    if size >= 2 && InnerGreyFree(size, pieces, g) {
      SolvedTopology(size, pieces, g, lines);
    }
  }

  // ------------------------------------------------------------------
  // A solvable set passes: colours
  // ------------------------------------------------------------------

  function SidesOf(pieces: Pieces, g: Grid, colour: int): (s: set<(Cell, int)>)
    ensures forall e :: e in s <==> Shows(pieces, g, e.0, e.1, colour)
  {
    var s := set c, side | c in g && 0 <= side < 4 && Shows(pieces, g, c, side, colour) :: (c, side);
    assert forall e: (Cell, int) :: e == (e.0, e.1);
    s
  }

  function Across(e: (Cell, int)): (Cell, int) { (Neighbour(e.0, e.1), Opposite(e.1)) }

  /** A coloured side faces a side of the same colour on another cell. */
  lemma AcrossShows(size: nat, pieces: Pieces, g: Grid, colour: int, e: (Cell, int))
    requires Solves(size, pieces, g) && colour != GREY && e in SidesOf(pieces, g, colour)
    ensures Across(e) in SidesOf(pieces, g, colour) && Across(Across(e)) == e && Across(e).0 != e.0
  {
    assert SideFits(size, pieces, g, e.0, e.1);
    NeighbourBack(e.0, e.1);
  }

  ghost predicate Paired(s: set<(Cell, int)>) {
    forall e :: e in s ==> Across(e) in s && Across(Across(e)) == e && Across(e) != e
  }

  lemma PairRemoved(s: set<(Cell, int)>, e: (Cell, int))
    requires Paired(s) && e in s
    ensures Paired(s - {e} - {Across(e)}) && |s| == |s - {e} - {Across(e)}| + 2
  {
    var rest := s - {e} - {Across(e)};
    forall d | d in rest ensures Across(d) in rest {
      assert Across(Across(d)) == d && Across(Across(e)) == e;
    }
    assert |s - {e}| == |s| - 1 && Across(e) in s - {e};
  }

  /** A set with an involution that moves every element has even size. */
  lemma {:induction false} PairedEven(s: set<(Cell, int)>)
    requires Paired(s)
    ensures |s| % 2 == 0
    decreases |s|
  {
    if |s| > 0 {
      var e := Pick(s);
      PairRemoved(s, e);
      PairedEven(s - {e} - {Across(e)});
    }
  }

  lemma {:induction false} TotalIds(lines: seq<Line>, pieces: Pieces, n: nat, colour: int)
    requires ListsPieces(lines, pieces) && n <= |lines|
    ensures IdsBelow(lines, n) <= pieces.Keys && Total(lines, n, colour) == |FacesOf(pieces, IdsBelow(lines, n), colour)|
  {
    if n == 0 {
      assert IdsBelow(lines, 0) == {};
      assert FacesOf(pieces, {}, colour) == {};
    } else {
      TotalIds(lines, pieces, n - 1, colour);
      IdsBelowStep(lines, pieces, n - 1);
      FacesOfStep(pieces, IdsBelow(lines, n), lines[n - 1].id, colour);
      assert IdsBelow(lines, n) - {lines[n - 1].id} == IdsBelow(lines, n - 1);
    }
  }

  /** The sides that show a colour are as many as the faces that carry it. */
  lemma SidesAreFaces(size: nat, pieces: Pieces, g: Grid, colour: int)
    requires Solves(size, pieces, g)
    ensures |SidesOf(pieces, g, colour)| == |FacesOf(pieces, pieces.Keys, colour)|
  {
    SidesBound(pieces, g, SidesOf(pieces, g, colour), colour);
    FacesBound(pieces, g, colour);
  }

  ghost function Landing(g: Grid, f: (int, int)): (Cell, int)
    requires f.0 in Ids(g)
  {
    (CellOf(g, f.0), (f.1 + g[CellOf(g, f.0)].rot) % 4)
  }

  lemma LandingShows(pieces: Pieces, g: Grid, colour: int, f: (int, int))
    requires Known(pieces, g) && Ids(g) == pieces.Keys && f in FacesOf(pieces, pieces.Keys, colour)
    ensures Landing(g, f) in SidesOf(pieces, g, colour)
  {
    var c, r := CellOf(g, f.0), g[CellOf(g, f.0)].rot;
    var side := (f.1 + r) % 4;
    assert (side - r) % 4 == f.1;
    FaceIndex(pieces[f.0], r, side);
    assert Face(pieces, g, c, side) == pieces[f.0][f.1];
  }

  lemma LandingInjective(g: Grid, e: (int, int), f: (int, int))
    requires e.0 in Ids(g) && f.0 in Ids(g) && 0 <= e.1 < 4 && 0 <= f.1 < 4
    requires Landing(g, e) == Landing(g, f)
    ensures e == f
  {
    assert g[CellOf(g, e.0)].id == e.0 && g[CellOf(g, f.0)].id == f.0;
  }

  ghost function Landings(g: Grid, faces: set<(int, int)>): map<(int, int), (Cell, int)>
    requires forall f :: f in faces ==> f.0 in Ids(g)
  {
    map f | f in faces :: Landing(g, f)
  }

  lemma LandingsCard(g: Grid, faces: set<(int, int)>, sides: set<(Cell, int)>)
    requires forall f :: f in faces ==> f.0 in Ids(g) && 0 <= f.1 < 4 && Landing(g, f) in sides
    ensures |faces| <= |sides|
  {
    var to := Landings(g, faces);
    forall e, f | e in to && f in to && to[e] == to[f] ensures e == f { LandingInjective(g, e, f); }
    InjectionCard(to, sides);
    assert to.Keys == faces;
  }

  lemma FacesBound(pieces: Pieces, g: Grid, colour: int)
    requires Known(pieces, g) && Ids(g) == pieces.Keys
    ensures |FacesOf(pieces, pieces.Keys, colour)| <= |SidesOf(pieces, g, colour)|
  {
    var faces := FacesOf(pieces, pieces.Keys, colour);
    forall f | f in faces ensures f.0 in Ids(g) && 0 <= f.1 < 4 && Landing(g, f) in SidesOf(pieces, g, colour) {
      LandingShows(pieces, g, colour, f);
    }
    LandingsCard(g, faces, SidesOf(pieces, g, colour));
  }

  /** Every colour count is even. */
  lemma SolvedEven(size: nat, pieces: Pieces, g: Grid, lines: seq<Line>, colour: int)
    requires Solves(size, pieces, g) && ListsPieces(lines, pieces) && colour != GREY
    ensures Total(lines, |lines|, colour) == |SidesOf(pieces, g, colour)| && Total(lines, |lines|, colour) % 2 == 0
  {
    TotalIds(lines, pieces, |lines|, colour);
    AllIds(lines, pieces);
    SidesAreFaces(size, pieces, g, colour);
    var sides := SidesOf(pieces, g, colour);
    forall e | e in sides ensures Across(e) in sides && Across(Across(e)) == e && Across(e) != e {
      AcrossShows(size, pieces, g, colour, e);
    }
    PairedEven(sides);
  }

  /** The sides of one cell that show a colour. */
  function SidesAt(pieces: Pieces, g: Grid, c: Cell, colour: int): set<(Cell, int)> {
    set e | e in SidesOf(pieces, g, colour) && e.0 == c
  }

  function SidesBelow(c: Cell, q: Quad, n: nat, colour: int): set<(Cell, int)>
    requires n <= 4
  {
    set i | 0 <= i < n && q[i] == colour :: (c, i)
  }

  lemma SidesBelowStep(c: Cell, q: Quad, n: nat, colour: int)
    requires n < 4
    ensures |SidesBelow(c, q, n + 1, colour)| == |SidesBelow(c, q, n, colour)| + Is(q[n], colour)
  {
    var below := SidesBelow(c, q, n, colour);
    assert SidesBelow(c, q, n + 1, colour) == if q[n] == colour then below + {(c, n)} else below;
  }

  lemma SidesAtCount(pieces: Pieces, g: Grid, c: Cell, colour: int)
    requires c in g && g[c].id in pieces
    ensures |SidesAt(pieces, g, c, colour)| == Count(pieces[g[c].id], colour)
  {
    var q := Faces(pieces[g[c].id], g[c].rot);
    CountRotates(pieces[g[c].id], g[c].rot, colour);
    SidesAtBelow(pieces, g, c, colour);
    assert SidesBelow(c, q, 0, colour) == {};
    SidesBelowStep(c, q, 0, colour);
    SidesBelowStep(c, q, 1, colour);
    SidesBelowStep(c, q, 2, colour);
    SidesBelowStep(c, q, 3, colour);
  }

  lemma SidesAtBelow(pieces: Pieces, g: Grid, c: Cell, colour: int)
    requires c in g && g[c].id in pieces
    ensures SidesAt(pieces, g, c, colour) == SidesBelow(c, Faces(pieces[g[c].id], g[c].rot), 4, colour)
  {
    var q := Faces(pieces[g[c].id], g[c].rot);
    forall e | e in SidesAt(pieces, g, c, colour) ensures e in SidesBelow(c, q, 4, colour) {
      assert e == (c, e.1) && q[e.1] == colour;
    }
    forall e | e in SidesBelow(c, q, 4, colour) ensures e in SidesAt(pieces, g, c, colour) {
      assert Face(pieces, g, c, e.1) == q[e.1];
    }
  }

  lemma CountRotates(q: Quad, r: int, colour: int)
    ensures Count(Faces(q, r), colour) == Count(q, colour)
  {
    var k := r % 4;
    assert Faces(q, r) == Faces(q, k);
    assert k == 0 || k == 1 || k == 2 || k == 3;
  }

  lemma AtMostHalf(mine: set<(Cell, int)>, all: set<(Cell, int)>, over: map<(Cell, int), (Cell, int)>)
    requires mine <= all && over.Keys == mine
    requires forall e :: e in mine ==> over[e] in all - mine
    requires forall e, f :: e in mine && f in mine && over[e] == over[f] ==> e == f
    ensures 2 * |mine| <= |all|
  {
    InjectionCard(over, all - mine);
    assert |all - mine| == |all| - |mine|;
  }

  lemma AcrossElsewhere(size: nat, pieces: Pieces, g: Grid, c: Cell, colour: int, e: (Cell, int))
    requires Solves(size, pieces, g) && colour != GREY && e in SidesAt(pieces, g, c, colour)
    ensures Across(e) in SidesOf(pieces, g, colour) && Across(e) !in SidesAt(pieces, g, c, colour) && Across(Across(e)) == e
  {
    AcrossShows(size, pieces, g, colour, e);
  }

  /** The sides of a colour on one cell face as many sides of that colour on other cells. */
  lemma SidesElsewhere(size: nat, pieces: Pieces, g: Grid, c: Cell, colour: int)
    requires Solves(size, pieces, g) && colour != GREY
    ensures 2 * |SidesAt(pieces, g, c, colour)| <= |SidesOf(pieces, g, colour)|
  {
    var all, mine := SidesOf(pieces, g, colour), SidesAt(pieces, g, c, colour);
    var over := map e | e in mine :: Across(e);
    forall e | e in mine ensures over[e] in all - mine && Across(over[e]) == e {
      AcrossElsewhere(size, pieces, g, c, colour, e);
    }
    AtMostHalf(mine, all, over);
  }

  /** No piece holds more of a colour than all the others together. */
  lemma SolvedFair(size: nat, pieces: Pieces, g: Grid, lines: seq<Line>, p: int, colour: int)
    requires Solves(size, pieces, g) && ListsPieces(lines, pieces) && colour != GREY && p in pieces
    ensures 2 * Count(pieces[p], colour) <= Total(lines, |lines|, colour)
  {
    SolvedEven(size, pieces, g, lines, colour);
    assert p in Ids(g);
    SidesAtCount(pieces, g, CellOf(g, p), colour);
    SidesElsewhere(size, pieces, g, CellOf(g, p), colour);
  }

  /** The pieces of any complete correct board pass the pairing check, inner grey or not. */
  lemma SolvedPairing(size: nat, pieces: Pieces, g: Grid, lines: seq<Line>)
    requires Solves(size, pieces, g) && ListsPieces(lines, pieces)
    ensures PairingSound(lines)
  {
    forall i, j | 0 <= i < |lines| && 0 <= j < 4 && lines[i].faces[j] != GREY
      ensures Total(lines, |lines|, lines[i].faces[j]) % 2 == 0
    {
      SolvedEven(size, pieces, g, lines, lines[i].faces[j]);
    }
    PerPieceFaces(lines, |lines|);
    var per := PerPiece(lines, |lines|);
    forall p | p in per ensures PieceFair(lines, per[p], 4) {
      forall j | 0 <= j < 4 && per[p][j] != GREY ensures 2 * Count(per[p], per[p][j]) <= Total(lines, |lines|, per[p][j]) {
        assert per[p] == Mirror(pieces[p]);
        assert Count(per[p], per[p][j]) == Count(pieces[p], per[p][j]);
        SolvedFair(size, pieces, g, lines, p, per[p][j]);
      }
    }
  }
}
