/**
 The tables that `encode` of `tools/root_to_cnf.py` builds before it allocates a variable: empty cells,
 free pieces, imposed colours, candidates, free edges, edge domains, kept candidates.
 Each loop is proved to leave exactly what `CompletionCnf` defines.
 */
module RootTables {
  import opened Puzzle
  import opened CompletionCnf

  datatype Option<T> = None | Some(value: T)

  predicate NoDup<T(==)>(s: seq<T>) { forall i, j :: 0 <= i < j < |s| ==> s[i] != s[j] }

  // ------------------------------------------------------------------
  // Small tables
  // ------------------------------------------------------------------

  /** Counts the pieces by number of grey faces and compares with the frame of a `size` board. */
  method StructuralGreyCheck(pieces: Pieces, size: nat) returns (ok: bool)
    ensures ok <==> GreyStructure(pieces, size)
  {
    var byZeros := [0, 0, 0, 0, 0];
    var rest := pieces.Keys;
    assert forall k: nat :: WithZeros(pieces, {}, k) == {};
    assert pieces.Keys - rest == {};
    while rest != {}
      invariant rest <= pieces.Keys && |byZeros| == 5
      invariant forall k :: 0 <= k < 5 ==> byZeros[k] == |WithZeros(pieces, pieces.Keys - rest, k)|
      decreases rest
    {
      ghost var some := Pick(rest);
      var p :| p in rest;
      var z := Zeros(pieces[p]);
      ghost var done := pieces.Keys - (rest - {p});
      forall k: nat | k < 5
        ensures |WithZeros(pieces, done, k)| == |WithZeros(pieces, pieces.Keys - rest, k)| + (if z == k then 1 else 0)
      {
        assert done - {p} == pieces.Keys - rest;
        WithZerosSplit(pieces, done, p, k);
      }
      byZeros := byZeros[z := byZeros[z] + 1];
      rest := rest - {p};
    }
    assert pieces.Keys - rest == pieces.Keys;
    ok := byZeros[2] == 4 && byZeros[1] == 4 * (size - 2) && byZeros[3] == 0 && byZeros[4] == 0;
  }

  ghost predicate ListsEmpties(rt: Root, cells: seq<Cell>) {
    NoDup(cells) && forall c :: c in cells <==> IsEmpty(rt, c)
  }

  method EmptyCells(rt: Root) returns (empties: seq<Cell>)
    ensures ListsEmpties(rt, empties)
  {
    empties := [];
    for x := 0 to rt.size
      invariant NoDup(empties)
      invariant forall c :: c in empties <==> IsEmpty(rt, c) && c.x < x
    {
      for y := 0 to rt.size
        invariant NoDup(empties)
        invariant forall c :: c in empties <==> IsEmpty(rt, c) && (c.x < x || (c.x == x && c.y < y))
      {
        var c := Cell(x, y);
        if c !in rt.board {
          empties := empties + [c];
        }
      }
    }
  }

  predicate Ascending(s: seq<int>) { forall i, j :: 0 <= i < j < |s| ==> s[i] < s[j] }

  lemma {:induction false} LeastExists(s: set<int>) returns (least: int)
    requires |s| > 0
    ensures least in s && forall q :: q in s ==> least <= q
    decreases |s|
  {
    var p := Pick(s);
    if |s| == 1 {
      SubsetCard({p}, s);
      assert s == {p};
      least := p;
    } else {
      var below := LeastExists(s - {p});
      least := if below < p then below else p;
      forall q | q in s ensures least <= q {
        assert q == p || q in s - {p};
      }
    }
  }

  /** `sorted(...)` of a set. */
  method Sorted(s: set<int>) returns (r: seq<int>)
    ensures Ascending(r) && NoDup(r)
    ensures forall p :: p in r <==> p in s
  {
    r := [];
    var rest := s;
    while rest != {}
      invariant rest <= s && Ascending(r)
      invariant forall p :: p in r <==> p in s && p !in rest
      invariant forall p, q :: p in r && q in rest ==> p < q
      decreases rest
    {
      ghost var least := LeastExists(rest);
      var p :| p in rest && forall q :: q in rest ==> p <= q;
      assert forall i :: 0 <= i < |r| ==> r[i] in r;
      r := r + [p];
      rest := rest - {p};
    }
  }

  ghost predicate ListsFree(rt: Root, free: seq<int>) {
    NoDup(free) && forall p :: p in free <==> IsFree(rt, p)
  }

  ghost predicate ListsRotations(q: Quad, rs: seq<int>) {
    NoDup(rs) && forall r :: r in rs <==> FirstRotation(q, r)
  }

  ghost predicate RotTable(rt: Root, rots: map<int, seq<int>>) {
    forall p :: IsFree(rt, p) ==> p in rots && ListsRotations(rt.pieces[p], rots[p])
  }

  /** Rotations that show pairwise distinct face quadruples. */
  method DistinctRotations(q: Quad) returns (rs: seq<int>)
    ensures ListsRotations(q, rs)
    ensures forall i, j :: 0 <= i < j < |rs| ==> Faces(q, rs[i]) != Faces(q, rs[j])
    ensures forall r :: 0 <= r < 4 ==> ShownBy(q, rs, Faces(q, r))
  {
    var seen: map<Quad, int> := map[];
    for r := 0 to 4
      invariant SeenRotations(q, seen, r)
    {
      var f := Faces(q, r);
      if f !in seen {
        seen := seen[f := r];
      }
    }
    forall r ensures r in seen.Values <==> FirstRotation(q, r) {
      SeenAreFirst(q, seen, r);
    }
    rs := Sorted(seen.Values);
    RotationsDiffer(q, rs);
    forall r | 0 <= r < 4 ensures ShownBy(q, rs, Faces(q, r)) {
      assert seen[Faces(q, r)] in rs;
    }
  }

  predicate ShownBy(q: Quad, rs: seq<int>, f: Quad) { exists i :: 0 <= i < |rs| && Faces(q, rs[i]) == f }

  lemma RotationsDiffer(q: Quad, rs: seq<int>)
    requires ListsRotations(q, rs)
    ensures forall i, j :: 0 <= i < j < |rs| ==> Faces(q, rs[i]) != Faces(q, rs[j])
  {
    forall i, j | 0 <= i < j < |rs| ensures Faces(q, rs[i]) != Faces(q, rs[j]) {
      assert rs[i] in rs && rs[j] in rs && rs[i] != rs[j];
    }
  }

  /** The dictionary maps every quadruple shown so far to the first rotation that shows it. */
  ghost predicate SeenRotations(q: Quad, seen: map<Quad, int>, n: int) {
    && (forall r :: 0 <= r < n ==> Faces(q, r) in seen)
    && forall f :: f in seen ==> 0 <= seen[f] < n && Faces(q, seen[f]) == f && FirstRotation(q, seen[f])
  }

  lemma SeenAreFirst(q: Quad, seen: map<Quad, int>, r: int)
    requires SeenRotations(q, seen, 4)
    ensures r in seen.Values <==> FirstRotation(q, r)
  {
    if FirstRotation(q, r) {
      var r' := seen[Faces(q, r)];
      assert FirstRotation(q, r') && Faces(q, r') == Faces(q, r);
      assert r' == r;
    }
  }

  function Sides(rt: Root, c: Cell): seq<Wanted>
    requires WellKeyed(rt)
  {
    [SideWanted(rt, c, TOP), SideWanted(rt, c, RIGHT), SideWanted(rt, c, BOTTOM), SideWanted(rt, c, LEFT)]
  }

  /** The colour imposed on each side of each empty cell, or none when the edge is free. */
  method FixedSides(rt: Root, empties: seq<Cell>) returns (fixed: map<Cell, seq<Wanted>>)
    requires WellKeyed(rt)
    ensures forall c :: c in empties ==> c in fixed && fixed[c] == Sides(rt, c)
  {
    fixed := map[];
    for i := 0 to |empties|
      invariant forall c :: c in empties[..i] ==> c in fixed && fixed[c] == Sides(rt, c)
    {
      var c := empties[i];
      var perSide: seq<Wanted> := [];
      for side := 0 to 4
        invariant |perSide| == side && forall d :: 0 <= d < side ==> perSide[d] == SideWanted(rt, c, d)
      {
        var nb := Neighbour(c, side);
        var want := Open;
        if !InGrid(nb, rt.size) {
          want := Imposed(GREY);
        } else if nb in rt.board {
          var other := rt.board[nb];
          want := Imposed(Faces(rt.pieces[other.id], other.rot)[(side + 2) % 4]);
        }
        assert want == SideWanted(rt, c, side);
        perSide := perSide + [want];
      }
      assert perSide == Sides(rt, c);
      fixed := fixed[c := perSide];
    }
  }

  lemma FixedOpen(rt: Root, c: Cell, side: int)
    requires WellKeyed(rt) && IsEmpty(rt, c) && 0 <= side < 4
    ensures SideWanted(rt, c, side) == Open <==> FreeSide(rt, c, side)
  {
  }

  // ------------------------------------------------------------------
  // Candidates, free edges, domains
  // ------------------------------------------------------------------

  ghost predicate ListsCandidates(rt: Root, c: Cell, lst: seq<Placed>)
    requires WellKeyed(rt)
  {
    NoDup(lst) && forall pl :: pl in lst <==> Candidate(rt, c, pl)
  }

  /** The loop over the four sides of one placement. */
  method SidesAccept(rt: Root, perSide: seq<Wanted>, f: Quad) returns (ok: bool)
    requires |perSide| == 4
    ensures ok <==> forall side :: 0 <= side < 4 ==> Accepts(rt, perSide[side], f[side])
  {
    for side := 0 to 4
      invariant forall s :: 0 <= s < side ==> Accepts(rt, perSide[s], f[s])
    {
      if !Accepts(rt, perSide[side], f[side]) {
        return false;
      }
    }
    ok := true;
  }

  method CandidatesOf(rt: Root, c: Cell, free: seq<int>, rots: map<int, seq<int>>, perSide: seq<Wanted>)
    returns (lst: seq<Placed>)
    requires WellKeyed(rt) && IsEmpty(rt, c) && perSide == Sides(rt, c)
    requires ListsFree(rt, free) && RotTable(rt, rots)
    ensures ListsCandidates(rt, c, lst)
  {
    lst := [];
    for i := 0 to |free|
      invariant NoDup(lst)
      invariant forall pl :: pl in lst <==> Candidate(rt, c, pl) && pl.id in free[..i]
    {
      var p := free[i];
      assert p in free;
      var rs := rots[p];
      for k := 0 to |rs|
        invariant NoDup(lst)
        invariant forall pl :: pl in lst <==> Candidate(rt, c, pl) && (pl.id in free[..i] || (pl.id == p && pl.rot in rs[..k]))
      {
        var f := Faces(rt.pieces[p], rs[k]);
        var ok := SidesAccept(rt, perSide, f);
        assert forall side :: 0 <= side < 4 ==> perSide[side] == SideWanted(rt, c, side);
        assert ok <==> Candidate(rt, c, Placed(p, rs[k]));
        if ok {
          lst := lst + [Placed(p, rs[k])];
        }
      }
    }
  }

  ghost predicate CandTable(rt: Root, cand: map<Cell, seq<Placed>>)
    requires WellKeyed(rt)
  {
    forall c :: IsEmpty(rt, c) ==> c in cand && ListsCandidates(rt, c, cand[c])
  }

  method Candidates(rt: Root, empties: seq<Cell>, free: seq<int>, fixed: map<Cell, seq<Wanted>>)
    returns (cand: map<Cell, seq<Placed>>)
    requires WellKeyed(rt) && ListsEmpties(rt, empties)
    requires ListsFree(rt, free)
    requires forall c :: c in empties ==> c in fixed && fixed[c] == Sides(rt, c)
    ensures CandTable(rt, cand)
  {
    var rots: map<int, seq<int>> := map[];
    for i := 0 to |free|
      invariant forall p :: IsFree(rt, p) && p in free[..i] ==> p in rots && ListsRotations(rt.pieces[p], rots[p])
    {
      assert free[i] in free && IsFree(rt, free[i]);
      var rs := DistinctRotations(rt.pieces[free[i]]);
      rots := rots[free[i] := rs];
    }
    assert free[..|free|] == free;
    cand := map[];
    for i := 0 to |empties|
      invariant forall c :: c in empties[..i] ==> c in cand && ListsCandidates(rt, c, cand[c])
    {
      var lst := CandidatesOf(rt, empties[i], free, rots, fixed[empties[i]]);
      cand := cand[empties[i] := lst];
    }
    assert empties[..|empties|] == empties;
  }

  ghost predicate ListsEdges(rt: Root, edges: seq<Edge>) {
    NoDup(edges) && forall e :: e in edges <==> IsFreeEdge(rt, e)
  }

  method FreeEdges(rt: Root, empties: seq<Cell>) returns (edges: seq<Edge>)
    requires ListsEmpties(rt, empties)
    ensures ListsEdges(rt, edges)
  {
    edges := [];
    for i := 0 to |empties|
      invariant NoDup(edges)
      invariant forall e :: e in edges <==> IsFreeEdge(rt, e) && e.cell in empties[..i]
    {
      var c := empties[i];
      for side := RIGHT to BOTTOM + 1
        invariant NoDup(edges)
        invariant forall e :: e in edges <==> IsFreeEdge(rt, e) && (e.cell in empties[..i] || (e.cell == c && e.side < side))
      {
        var nb := Neighbour(c, side);
        if InGrid(nb, rt.size) && nb !in rt.board {
          edges := edges + [Edge(c, side)];
        }
      }
    }
    assert empties[..|empties|] == empties;
  }

  ghost predicate ListsDomain(rt: Root, e: Edge, cols: seq<int>)
    requires WellKeyed(rt) && 0 <= e.side < 4
  {
    NoDup(cols) && forall col :: col in cols <==> InDomain(rt, e, col)
  }

  ghost predicate DomainTable(rt: Root, domain: map<Edge, seq<int>>)
    requires WellKeyed(rt)
  {
    forall e :: IsFreeEdge(rt, e) ==> e in domain && ListsDomain(rt, e, domain[e])
  }

  /** The colours that the candidates of one cell can show on one side. */
  function Showable(rt: Root, lst: seq<Placed>, side: int): (cols: set<int>)
    requires 0 <= side < 4 && forall pl :: pl in lst ==> pl.id in rt.pieces
    ensures forall col :: col in cols <==> exists pl :: pl in lst && PlacedFaces(rt, pl)[side] == col
  {
    set pl | pl in lst :: PlacedFaces(rt, pl)[side]
  }

  lemma ShowableExact(rt: Root, c: Cell, lst: seq<Placed>, side: int)
    requires WellKeyed(rt) && 0 <= side < 4 && ListsCandidates(rt, c, lst)
    ensures forall pl :: pl in lst ==> pl.id in rt.pieces
    ensures forall col :: col in Showable(rt, lst, side) <==> CanShow(rt, c, side, col)
  {
  }

  /** Each free edge may carry the colours that both of its cells can show. */
  method Domains(rt: Root, edges: seq<Edge>, cand: map<Cell, seq<Placed>>) returns (domain: map<Edge, seq<int>>)
    requires WellKeyed(rt) && ListsEdges(rt, edges) && CandTable(rt, cand)
    ensures DomainTable(rt, domain)
  {
    domain := map[];
    for i := 0 to |edges|
      invariant forall e :: IsFreeEdge(rt, e) && e in edges[..i] ==> e in domain && ListsDomain(rt, e, domain[e])
    {
      var e := edges[i];
      var nb := Neighbour(e.cell, e.side);
      assert IsFreeEdge(rt, e);
      ShowableExact(rt, e.cell, cand[e.cell], e.side);
      ShowableExact(rt, nb, cand[nb], Opposite(e.side));
      var mine := Showable(rt, cand[e.cell], e.side);
      var theirs := Showable(rt, cand[nb], Opposite(e.side));
      var cols := Sorted(mine * theirs);
      domain := domain[e := cols];
    }
    assert edges[..|edges|] == edges;
  }

  ghost predicate ListsKept(rt: Root, c: Cell, lst: seq<Placed>)
    requires WellKeyed(rt)
  {
    NoDup(lst) && forall pl :: pl in lst <==> Kept(rt, Slot(c, pl))
  }

  ghost predicate KeptTable(rt: Root, kept: map<Cell, seq<Placed>>)
    requires WellKeyed(rt)
  {
    forall c :: IsEmpty(rt, c) ==> c in kept && ListsKept(rt, c, kept[c])
  }

  method SidesInDomain(rt: Root, c: Cell, pl: Placed, perSide: seq<Wanted>, domain: map<Edge, seq<int>>) returns (ok: bool)
    requires WellKeyed(rt) && IsEmpty(rt, c) && Candidate(rt, c, pl) && perSide == Sides(rt, c) && DomainTable(rt, domain)
    ensures ok <==> Kept(rt, Slot(c, pl))
  {
    var f := Faces(rt.pieces[pl.id], pl.rot);
    for side := 0 to 4
      invariant forall s :: FreeSide(rt, c, s) && s < side ==> InDomain(rt, EdgeOf(c, s), PlacedFaces(rt, pl)[s])
    {
      FixedOpen(rt, c, side);
      if perSide[side] == Open {
        EdgeShared(c, side);
        NeighbourBack(c, side);
        assert IsFreeEdge(rt, EdgeOf(c, side));
        if f[side] !in domain[EdgeOf(c, side)] {
          return false;
        }
      }
    }
    ok := true;
  }

  /** The single pass that drops candidates showing a colour outside a domain. */
  method Prune(rt: Root, empties: seq<Cell>, fixed: map<Cell, seq<Wanted>>, cand: map<Cell, seq<Placed>>, domain: map<Edge, seq<int>>)
    returns (kept: map<Cell, seq<Placed>>)
    requires WellKeyed(rt) && ListsEmpties(rt, empties) && CandTable(rt, cand) && DomainTable(rt, domain)
    requires forall c :: c in empties ==> c in fixed && fixed[c] == Sides(rt, c)
    ensures KeptTable(rt, kept)
  {
    kept := map[];
    for i := 0 to |empties|
      invariant forall c :: c in empties[..i] ==> c in kept && ListsKept(rt, c, kept[c])
    {
      var c := empties[i];
      var lst := cand[c];
      assert ListsCandidates(rt, c, lst);
      var keep: seq<Placed> := [];
      for k := 0 to |lst|
        invariant NoDup(keep)
        invariant forall pl :: pl in keep <==> Kept(rt, Slot(c, pl)) && pl in lst[..k]
      {
        assert lst[k] in lst;
        var ok := SidesInDomain(rt, c, lst[k], fixed[c], domain);
        if ok {
          keep := keep + [lst[k]];
        }
      }
      assert lst[..|lst|] == lst;
      kept := kept[c := keep];
    }
    assert empties[..|empties|] == empties;
  }
}
