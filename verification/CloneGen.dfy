/**
 The clone generator of `tools/gen_clone.py`: draws edge colours, cuts the board into turned pieces,
 and plants the solution. Random choices are arbitrary.
 */
module CloneGen {
  import opened Puzzle
  import opened Rotations
  import opened RootTables
  import opened RootToCnf
  import opened VerifyModel

  /** An inner edge: `V(x, y)` between (x,y) and (x+1,y), `H(x, y)` between (x,y) and (x,y+1). */
  datatype EdgeSlot = V(x: int, y: int) | H(x: int, y: int)

  predicate IsBorder(x: int, y: int, n: nat) { x == 0 || y == 0 || x == n - 1 || y == n - 1 }

  predicate IsSlot(n: nat, s: EdgeSlot) {
    match s
    case V(x, y) => 0 <= x < n - 1 && 0 <= y < n
    case H(x, y) => 0 <= x < n && 0 <= y < n - 1
  }

  /** Both cells of the edge touch the outline. */
  predicate IsFrame(n: nat, s: EdgeSlot) {
    match s
    case V(x, y) => IsBorder(x, y, n) && IsBorder(x + 1, y, n)
    case H(x, y) => IsBorder(x, y, n) && IsBorder(x, y + 1, n)
  }

  method EdgeSlots(n: nat) returns (frame: seq<EdgeSlot>, inner: seq<EdgeSlot>)
    ensures NoDup(frame) && forall s :: s in frame <==> IsSlot(n, s) && IsFrame(n, s)
    ensures NoDup(inner) && forall s :: s in inner <==> IsSlot(n, s) && !IsFrame(n, s)
  {
    frame, inner := VerticalSlots(n);
    ghost var f0, i0 := frame, inner;
    for x := 0 to n
      invariant NoDup(frame) && NoDup(inner)
      invariant forall s :: s in frame <==> s in f0 || (s.H? && IsSlot(n, s) && IsFrame(n, s) && s.x < x)
      invariant forall s :: s in inner <==> s in i0 || (s.H? && IsSlot(n, s) && !IsFrame(n, s) && s.x < x)
    {
      for y := 0 to n - 1
        invariant NoDup(frame) && NoDup(inner)
        invariant forall s :: s in frame <==> s in f0 || (s.H? && IsSlot(n, s) && IsFrame(n, s) && (s.x < x || (s.x == x && s.y < y)))
        invariant forall s :: s in inner <==> s in i0 || (s.H? && IsSlot(n, s) && !IsFrame(n, s) && (s.x < x || (s.x == x && s.y < y)))
      {
        if IsBorder(x, y, n) && IsBorder(x, y + 1, n) {
          frame := frame + [H(x, y)];
        } else {
          inner := inner + [H(x, y)];
        }
      }
    }
  }

  method VerticalSlots(n: nat) returns (frame: seq<EdgeSlot>, inner: seq<EdgeSlot>)
    ensures NoDup(frame) && forall s :: s in frame <==> s.V? && IsSlot(n, s) && IsFrame(n, s)
    ensures NoDup(inner) && forall s :: s in inner <==> s.V? && IsSlot(n, s) && !IsFrame(n, s)
  {
    frame, inner := [], [];
    var x := 0;
    while x < n - 1
      invariant 0 <= x && (x <= n - 1 || x == 0)
      invariant NoDup(frame) && NoDup(inner)
      invariant forall s :: s in frame <==> s.V? && IsSlot(n, s) && IsFrame(n, s) && s.x < x
      invariant forall s :: s in inner <==> s.V? && IsSlot(n, s) && !IsFrame(n, s) && s.x < x
    {
      for y := 0 to n
        invariant NoDup(frame) && NoDup(inner)
        invariant forall s :: s in frame <==> s.V? && IsSlot(n, s) && IsFrame(n, s) && (s.x < x || (s.x == x && s.y < y))
        invariant forall s :: s in inner <==> s.V? && IsSlot(n, s) && !IsFrame(n, s) && (s.x < x || (s.x == x && s.y < y))
      {
        if IsBorder(x, y, n) && IsBorder(x + 1, y, n) {
          frame := frame + [V(x, y)];
        } else {
          inner := inner + [V(x, y)];
        }
      }
      x := x + 1;
    }
  }

  function FrameAt(n: nat, row: nat, i: int): EdgeSlot {
    if row == 0 then V(i, 0) else if row == 1 then V(i, n - 1) else if row == 2 then H(0, i) else H(n - 1, i)
  }

  predicate InRow(n: nat, row: nat, s: EdgeSlot) {
    if row == 0 then s.V? && s.y == 0 && 0 <= s.x < n - 1
    else if row == 1 then s.V? && s.y == n - 1 && 0 <= s.x < n - 1
    else if row == 2 then s.H? && s.x == 0 && 0 <= s.y < n - 1
    else s.H? && s.x == n - 1 && 0 <= s.y < n - 1
  }

  /** One side of the outline. */
  function FrameRow(n: nat, row: nat): (slots: set<EdgeSlot>)
    requires n >= 1
    ensures forall s :: s in slots <==> InRow(n, row, s)
  {
    var slots := set i | 0 <= i < n - 1 :: FrameAt(n, row, i);
    assert forall s :: InRow(n, row, s) ==> s == FrameAt(n, row, if s.V? then s.x else s.y);
    slots
  }

  lemma FrameRowCard(n: nat, row: nat)
    requires n >= 1 && row < 4
    ensures |FrameRow(n, row)| == n - 1
  {
    var at := (i: int) => FrameAt(n, row, i);
    RangeCard(n - 1, at);
    var all := set i | 0 <= i < n - 1 :: at(i);
    forall e | InRow(n, row, e) ensures e in all {
      assert e == at(if e.V? then e.x else e.y);
    }
    assert FrameRow(n, row) == all;
  }

  lemma FrameSides(n: nat, s: EdgeSlot)
    requires n >= 1
    ensures IsSlot(n, s) && IsFrame(n, s) <==> InRow(n, 0, s) || InRow(n, 1, s) || InRow(n, 2, s) || InRow(n, 3, s)
  {
  }

  lemma RowsCard(n: nat)
    requires n >= 1
    ensures |FrameRow(n, 0) + FrameRow(n, 1) + FrameRow(n, 2) + FrameRow(n, 3)| == 4 * (n - 1)
  {
    var a, b, c, d := FrameRow(n, 0), FrameRow(n, 1), FrameRow(n, 2), FrameRow(n, 3);
    FrameRowCard(n, 0);
    FrameRowCard(n, 1);
    FrameRowCard(n, 2);
    FrameRowCard(n, 3);
    assert a !! b && (a + b) !! c && (a + b + c) !! d;
    assert |a + b| == |a| + |b|;
    assert |a + b + c| == |a + b| + |c|;
    assert |a + b + c + d| == |a + b + c| + |d|;
  }

  /** The ring along the outline has exactly 4(n-1) edges. */
  lemma FrameCount(n: nat, frame: seq<EdgeSlot>)
    requires n >= 1 && NoDup(frame) && forall s :: s in frame <==> IsSlot(n, s) && IsFrame(n, s)
    ensures |frame| == 4 * (n - 1)
  {
    var rows := FrameRow(n, 0) + FrameRow(n, 1) + FrameRow(n, 2) + FrameRow(n, 3);
    forall s ensures s in frame <==> s in rows {
      FrameSides(n, s);
    }
    RowsCard(n);
    ListCard(frame, rows);
  }

  // ------------------------------------------------------------------
  // Balanced colours
  // ------------------------------------------------------------------

  method Shuffle<T(==)>(s: seq<T>) returns (r: seq<T>)
    ensures multiset(r) == multiset(s) && |r| == |s|
  {
    r := [];
    var rest := s;
    while rest != []
      invariant multiset(r) + multiset(rest) == multiset(s) && |r| + |rest| == |s|
      decreases |rest|
    {
      var i: nat :| i < |rest|;
      assert rest == rest[..i] + [rest[i]] + rest[i + 1..];
      r := r + [rest[i]];
      rest := rest[..i] + rest[i + 1..];
    }
  }

  function Cycle(order: seq<int>, n: nat): seq<int>
    requires order != []
  {
    seq(n, i requires i >= 0 => order[i % |order|])
  }

  lemma DivModStep(n: nat, m: nat)
    requires m > 0
    ensures (n + 1) % m == (if n % m == m - 1 then 0 else n % m + 1)
    ensures (n + 1) / m == (if n % m == m - 1 then n / m + 1 else n / m)
  {
    var q, r := n / m, n % m;
    assert n == q * m + r;
    if r == m - 1 {
      assert n + 1 == (q + 1) * m;
      DivModUnique(n + 1, m, q + 1, 0);
    } else {
      DivModUnique(n + 1, m, q, r + 1);
    }
  }

  lemma {:induction false} MulBelow(a: nat, b: nat, m: nat)
    requires a < b
    ensures a * m + m <= b * m
    decreases b
  {
    MulStep(b, m);
    if a < b - 1 {
      MulBelow(a, b - 1, m);
    }
  }

  lemma DivModUnique(n: nat, m: nat, q: nat, r: nat)
    requires m > 0 && n == q * m + r && r < m
    ensures n / m == q && n % m == r
  {
    var q', r' := n / m, n % m;
    assert n == q' * m + r';
    if q' < q {
      MulBelow(q', q, m);
    } else if q < q' {
      MulBelow(q, q', m);
    }
  }

  /** Dealing the palette round and round gives colour number `k` its floor share, plus one for the first few. */
  lemma {:induction false} CycleShares(order: seq<int>, n: nat, k: nat)
    requires NoDup(order) && k < |order|
    ensures multiset(Cycle(order, n))[order[k]] == n / |order| + (if k < n % |order| then 1 else 0)
  {
    var m := |order|;
    if n == 0 {
      assert Cycle(order, 0) == [];
    } else {
      CycleShares(order, n - 1, k);
      DivModStep(n - 1, m);
      assert Cycle(order, n) == Cycle(order, n - 1) + [order[(n - 1) % m]];
    }
  }

  /** Floor share of `n` among `m`, or one more when the division leaves a rest. */
  predicate FairShare(count: nat, n: nat, m: nat)
    requires m > 0
  {
    count == n / m || (count == n / m + 1 && n % m > 0)
  }

  function SlotsOf(edges: map<EdgeSlot, int>, c: int): (slots: set<EdgeSlot>)
    ensures forall s :: s in slots <==> s in edges && edges[s] == c
  {
    set s | s in edges && edges[s] == c
  }

  /** The slots all have a colour of the palette, and each colour its floor or ceiling share of them. */
  predicate Balanced(palette: seq<int>, edges: map<EdgeSlot, int>)
    requires palette != []
  {
    && (forall s :: s in edges ==> edges[s] in palette)
    && forall c :: c in palette ==> FairShare(|SlotsOf(edges, c)|, |edges|, |palette|)
  }

  lemma ShuffledShares(palette: seq<int>, order: seq<int>, colours: seq<int>, n: nat)
    requires palette != [] && NoDup(palette) && multiset(order) == multiset(palette) && |order| == |palette|
    requires multiset(colours) == multiset(Cycle(order, n))
    ensures forall c :: c in colours ==> c in palette
    ensures forall c :: c in palette ==> FairShare(multiset(colours)[c], n, |palette|)
  {
    NoDupShuffled(palette, order);
    forall c | c in palette ensures FairShare(multiset(colours)[c], n, |palette|) {
      assert c in multiset(order);
      var k :| 0 <= k < |order| && order[k] == c;
      CycleShares(order, n, k);
    }
    forall c | c in colours ensures c in palette {
      assert c in multiset(colours);
      assert c in Cycle(order, n);
      var i :| 0 <= i < n && Cycle(order, n)[i] == c;
      assert c in multiset(order);
      assert c in multiset(palette);
    }
  }

  lemma NoDupShuffled(a: seq<int>, b: seq<int>)
    requires NoDup(a) && multiset(a) == multiset(b)
    ensures NoDup(b)
  {
    forall i, j | 0 <= i < j < |b| ensures b[i] != b[j] {
      if b[i] == b[j] {
        assert b == b[..i] + [b[i]] + b[i + 1..j] + [b[j]] + b[j + 1..];
        assert multiset(b)[b[i]] >= 2;
        NoDupOnce(a, b[i]);
        assert false;
      }
    }
  }

  lemma {:induction false} NoDupOnce(a: seq<int>, c: int)
    requires NoDup(a)
    ensures multiset(a)[c] <= 1
    decreases |a|
  {
    if a != [] {
      var init, last := a[..|a| - 1], a[|a| - 1];
      assert a == init + [last];
      NoDupOnce(init, c);
      if c == last {
        assert c !in init;
      }
    }
  }

  /** `dict(zip(slots, colours))`, restricted to the first `i` pairs. */
  function Zip(slots: seq<EdgeSlot>, colours: seq<int>, i: nat): map<EdgeSlot, int>
    requires i <= |slots| == |colours|
  {
    if i == 0 then map[] else Zip(slots, colours, i - 1)[slots[i - 1] := colours[i - 1]]
  }

  lemma {:induction false} ZipKeys(slots: seq<EdgeSlot>, colours: seq<int>, i: nat)
    requires i <= |slots| == |colours|
    ensures forall s :: s in Zip(slots, colours, i) <==> s in slots[..i]
    ensures forall s :: s in Zip(slots, colours, i) ==> Zip(slots, colours, i)[s] in colours
  {
    if i > 0 {
      ZipKeys(slots, colours, i - 1);
      assert slots[..i] == slots[..i - 1] + [slots[i - 1]];
    }
  }

  lemma SlotsOfStep(before: map<EdgeSlot, int>, last: EdgeSlot, colour: int, c: int)
    requires last !in before
    ensures |SlotsOf(before[last := colour], c)| == |SlotsOf(before, c)| + (if colour == c then 1 else 0)
  {
    var more, slots := SlotsOf(before[last := colour], c), SlotsOf(before, c);
    forall s ensures s in more <==> s in slots || (s == last && colour == c) {}
    if colour == c {
      assert more == slots + {last};
    } else {
      assert more == slots;
    }
  }

  lemma SizeStep(before: map<EdgeSlot, int>, last: EdgeSlot, colour: int)
    requires last !in before
    ensures |before[last := colour]| == |before| + 1
  {
    assert before[last := colour].Keys == before.Keys + {last};
  }

  function Occurrences(colours: seq<int>, i: nat, c: int): nat
    requires i <= |colours|
  {
    if i == 0 then 0 else Occurrences(colours, i - 1, c) + (if colours[i - 1] == c then 1 else 0)
  }

  lemma {:induction false} OccurrencesCount(colours: seq<int>, i: nat, c: int)
    requires i <= |colours|
    ensures Occurrences(colours, i, c) == multiset(colours[..i])[c]
  {
    if i > 0 {
      OccurrencesCount(colours, i - 1, c);
      assert colours[..i] == colours[..i - 1] + [colours[i - 1]];
    }
  }

  /** The slots of a colour are as many as its occurrences in the dealt list. */
  lemma {:induction false} ZipCount(slots: seq<EdgeSlot>, colours: seq<int>, i: nat, c: int)
    requires NoDup(slots) && i <= |slots| == |colours|
    ensures |SlotsOf(Zip(slots, colours, i), c)| == Occurrences(colours, i, c) && |Zip(slots, colours, i)| == i
  {
    if i == 0 {
      assert SlotsOf(map[], c) == {};
    } else {
      ZipKeys(slots, colours, i - 1);
      ZipCount(slots, colours, i - 1, c);
      SlotsOfStep(Zip(slots, colours, i - 1), slots[i - 1], colours[i - 1], c);
      SizeStep(Zip(slots, colours, i - 1), slots[i - 1], colours[i - 1]);
    }
  }

  method AssignBalanced(slots: seq<EdgeSlot>, palette: seq<int>) returns (edges: map<EdgeSlot, int>)
    requires NoDup(slots) && palette != [] && NoDup(palette)
    ensures (forall s :: s in edges <==> s in slots) && |edges| == |slots|
    ensures Balanced(palette, edges)
  {
    var order := Shuffle(palette);
    var colours := Shuffle(Cycle(order, |slots|));
    ShuffledShares(palette, order, colours, |slots|);
    edges := map[];
    for i := 0 to |slots|
      invariant edges == Zip(slots, colours, i)
    {
      edges := edges[slots[i] := colours[i]];
    }
    ZipKeys(slots, colours, |slots|);
    assert slots[..|slots|] == slots;
    ZipCount(slots, colours, |slots|, 0);
    ZipShares(slots, colours, edges);
    SharesBalanced(palette, colours, edges);
  }

  lemma SharesBalanced(palette: seq<int>, colours: seq<int>, edges: map<EdgeSlot, int>)
    requires palette != [] && forall s :: s in edges ==> edges[s] in palette
    requires forall c :: |SlotsOf(edges, c)| == multiset(colours)[c]
    requires forall c :: c in palette ==> FairShare(multiset(colours)[c], |edges|, |palette|)
    ensures Balanced(palette, edges)
  {
    forall c | c in palette ensures FairShare(|SlotsOf(edges, c)|, |edges|, |palette|) {
      assert |SlotsOf(edges, c)| == multiset(colours)[c];
    }
  }

  lemma ZipShares(slots: seq<EdgeSlot>, colours: seq<int>, edges: map<EdgeSlot, int>)
    requires NoDup(slots) && |colours| == |slots| && edges == Zip(slots, colours, |slots|)
    ensures forall c :: |SlotsOf(edges, c)| == multiset(colours)[c]
  {
    forall c: int ensures |SlotsOf(edges, c)| == multiset(colours)[c] {
      ZipShare(slots, colours, c);
    }
  }

  lemma ZipShare(slots: seq<EdgeSlot>, colours: seq<int>, c: int)
    requires NoDup(slots) && |colours| == |slots|
    ensures |SlotsOf(Zip(slots, colours, |slots|), c)| == multiset(colours)[c]
  {
    assert colours[..|slots|] == colours;
    ZipCount(slots, colours, |slots|, c);
    OccurrencesCount(colours, |slots|, c);
  }

  // ------------------------------------------------------------------
  // Cutting the board
  // ------------------------------------------------------------------

  /** All inner edges are coloured, none grey. */
  ghost predicate Coloured(n: nat, edges: map<EdgeSlot, int>) {
    forall s :: IsSlot(n, s) ==> s in edges && edges[s] > 0
  }

  /** The faces the drawn board shows at a cell. */
  function CellFaces(c: Cell, n: nat, edges: map<EdgeSlot, int>): Quad
    requires InGrid(c, n) && Coloured(n, edges)
  {
    [if c.y == 0 then 0 else edges[H(c.x, c.y - 1)],
     if c.x == n - 1 then 0 else edges[V(c.x, c.y)],
     if c.y == n - 1 then 0 else edges[H(c.x, c.y)],
     if c.x == 0 then 0 else edges[V(c.x - 1, c.y)]]
  }

  /** Every cut piece, turned as recorded, shows the drawn faces of its cell. */
  ghost predicate Cut(n: nat, edges: map<EdgeSlot, int>, pieces: Pieces, board: Grid)
    requires Coloured(n, edges)
  {
    forall c :: c in board ==>
      InGrid(c, n) && board[c].id in pieces && 0 <= board[c].rot < 4
      && Faces(pieces[board[c].id], board[c].rot) == CellFaces(c, n, edges)
  }

  /** No two pieces are rotations of each other, and none is symmetric. */
  ghost predicate AllDistinct(pieces: Pieces) {
    && (forall p :: p in pieces ==> !HasRotationalSymmetry(pieces[p]))
    && forall p, q :: p in pieces && q in pieces && p != q ==> !RotationOf(pieces[p], pieces[q])
  }

  /** What two cells drawn side by side show each other is the colour of their edge. */
  lemma FacingEdge(n: nat, edges: map<EdgeSlot, int>, c: Cell, side: int)
    requires Coloured(n, edges) && InGrid(c, n) && 0 <= side < 4
    ensures !InGrid(Neighbour(c, side), n) ==> CellFaces(c, n, edges)[side] == GREY
    ensures InGrid(Neighbour(c, side), n) ==>
      && CellFaces(c, n, edges)[side] != GREY
      && CellFaces(c, n, edges)[side] == CellFaces(Neighbour(c, side), n, edges)[Opposite(side)]
  {
  }

  /** A complete cut is a solution without inner grey. */
  lemma CutSolves(n: nat, edges: map<EdgeSlot, int>, pieces: Pieces, board: Grid)
    requires Coloured(n, edges) && Cut(n, edges, pieces, board)
    requires board.Keys == GridCells(n) && DistinctIds(board) && Ids(board) == pieces.Keys
    ensures Solves(n, pieces, board) && InnerGreyFree(n, pieces, board)
  {
    forall c, side | c in board && 0 <= side < 4
      ensures SideFits(n, pieces, board, c, side)
      ensures InGrid(Neighbour(c, side), n) ==> Face(pieces, board, c, side) != GREY
    {
      FacingEdge(n, edges, c, side);
    }
  }

  /** The drawn faces of this cell make a symmetric piece, or one that another cell has as well. */
  ghost predicate Redundant(n: nat, edges: map<EdgeSlot, int>, c: Cell)
    requires InGrid(c, n) && Coloured(n, edges)
  {
    || HasRotationalSymmetry(CellFaces(c, n, edges))
    || exists d :: InGrid(d, n) && d != c && RotationOf(CellFaces(d, n, edges), CellFaces(c, n, edges))
  }

  datatype Draw =
    | EmptyPalette
    | Rejected(edges: map<EdgeSlot, int>, at: Cell)
    | Drawn(edges: map<EdgeSlot, int>, board: Grid, pieces: Pieces)

  function Cells(n: nat, k: nat): (cells: seq<Cell>)
    requires k <= n
  {
    if k == 0 then [] else Cells(n, k - 1) + seq(n, y requires 0 <= y < n => Cell(k - 1, y))
  }

  lemma {:induction false} CellsAll(n: nat, k: nat)
    requires k <= n
    ensures NoDup(Cells(n, k)) && |Cells(n, k)| == k * n
    ensures forall c :: c in Cells(n, k) <==> InGrid(c, n) && c.x < k
  {
    if k > 0 {
      CellsAll(n, k - 1);
      MulStep(k, n);
      var column := seq(n, y requires 0 <= y < n => Cell(k - 1, y));
      forall c ensures c in column <==> InGrid(c, n) && c.x == k - 1 {
        if InGrid(c, n) && c.x == k - 1 { assert c == column[c.y]; }
      }
      assert forall i, j :: 0 <= i < j < |column| ==> column[i] != column[j];
    }
  }

  /** The colours `a+1 .. a+m`. */
  function Palette(a: nat, m: nat): (p: seq<int>)
    ensures |p| == m && NoDup(p) && (forall c :: c in p ==> a < c <= a + m) && forall i :: 0 <= i < m ==> p[i] == a + 1 + i
  {
    seq(m, i requires 0 <= i < m => a + 1 + i)
  }

  /** The pieces cut so far: the first `idx` cells, under the first `idx` shuffled identifiers. */
  ghost predicate CutSoFar(cells: seq<Cell>, ids: seq<int>, idx: nat, pieces: Pieces, board: Grid)
    requires idx <= |cells| == |ids|
  {
    && (forall c :: c in board <==> c in cells[..idx])
    && (forall p :: p in pieces <==> p in ids[..idx])
    && forall j :: 0 <= j < idx ==> cells[j] in board && board[cells[j]].id == ids[j]
  }

  lemma CutSoFarStep(cells: seq<Cell>, ids: seq<int>, idx: nat, pieces: Pieces, board: Grid, base: Quad, r: int)
    requires idx < |cells| == |ids| && NoDup(cells) && CutSoFar(cells, ids, idx, pieces, board)
    ensures CutSoFar(cells, ids, idx + 1, pieces[ids[idx] := base], board[cells[idx] := Placed(ids[idx], r)])
  {
  }

  lemma CutIds(cells: seq<Cell>, ids: seq<int>, pieces: Pieces, board: Grid)
    requires |cells| == |ids| && CutSoFar(cells, ids, |cells|, pieces, board)
    ensures Ids(board) == pieces.Keys
  {
    assert cells[..|cells|] == cells && ids[..|ids|] == ids;
    forall p | p in Ids(board) ensures p in pieces {
      var c :| c in board && board[c].id == p;
      var i :| 0 <= i < |cells| && cells[i] == c;
      assert ids[i] in ids;
    }
    forall p | p in pieces ensures p in Ids(board) {
      var i :| 0 <= i < |ids| && ids[i] == p;
      assert board[cells[i]].id == p;
    }
  }

  lemma CutDistinct(cells: seq<Cell>, ids: seq<int>, pieces: Pieces, board: Grid)
    requires |cells| == |ids| && NoDup(ids) && CutSoFar(cells, ids, |cells|, pieces, board)
    ensures DistinctIds(board)
  {
    assert cells[..|cells|] == cells;
    forall c, d | c in board && d in board && board[c].id == board[d].id ensures c == d {
      var i :| 0 <= i < |cells| && cells[i] == c;
      var j :| 0 <= j < |cells| && cells[j] == d;
    }
  }

  lemma CutComplete(n: nat, cells: seq<Cell>, ids: seq<int>, pieces: Pieces, board: Grid)
    requires |cells| == |ids| && NoDup(ids) && CutSoFar(cells, ids, |cells|, pieces, board)
    requires forall c :: c in cells <==> InGrid(c, n)
    ensures board.Keys == GridCells(n) && DistinctIds(board) && Ids(board) == pieces.Keys
  {
    CutIds(cells, ids, pieces, board);
    CutDistinct(cells, ids, pieces, board);
    assert cells[..|cells|] == cells;
  }

  /** The canonical forms seen are those of the pieces cut, each at its cell, and no piece so far is redundant. */
  ghost predicate SeenForms(n: nat, edges: map<EdgeSlot, int>, pieces: Pieces, board: Grid, seen: map<Quad, Cell>)
    requires Coloured(n, edges)
  {
    && AllDistinct(pieces)
    && (forall p :: p in pieces ==> Canonical(pieces[p]) in seen)
    && forall q :: q in seen ==> seen[q] in board && InGrid(seen[q], n) && Canonical(CellFaces(seen[q], n, edges)) == q
  }

  lemma SeenFormsStep(n: nat, edges: map<EdgeSlot, int>, pieces: Pieces, board: Grid, seen: map<Quad, Cell>,
                      pid: int, base: Quad, c: Cell, r: int)
    requires Coloured(n, edges) && InGrid(c, n) && Faces(base, r) == CellFaces(c, n, edges)
    requires SeenForms(n, edges, pieces, board, seen) && pid !in pieces
    requires !HasRotationalSymmetry(base) && Canonical(base) !in seen
    ensures SeenForms(n, edges, pieces[pid := base], board[c := Placed(pid, r)], seen[Canonical(base) := c])
  {
    CanonicalTurned(base, r);
    StillDistinct(pieces, pid, base);
  }

  lemma StillDistinct(pieces: Pieces, pid: int, base: Quad)
    requires AllDistinct(pieces) && pid !in pieces && !HasRotationalSymmetry(base)
    requires forall p :: p in pieces ==> Canonical(pieces[p]) != Canonical(base)
    ensures AllDistinct(pieces[pid := base])
  {
    var more := pieces[pid := base];
    forall p, q | p in more && q in more && p != q ensures !RotationOf(more[p], more[q]) {
      CanonicalExact(more[p], more[q]);
    }
  }

  /** A cell whose piece is symmetric, or of a form already seen at another cell, is redundant. */
  lemma RejectedRedundant(n: nat, edges: map<EdgeSlot, int>, pieces: Pieces, board: Grid, seen: map<Quad, Cell>,
                          base: Quad, c: Cell, r: int)
    requires Coloured(n, edges) && InGrid(c, n) && Faces(base, r) == CellFaces(c, n, edges)
    requires SeenForms(n, edges, pieces, board, seen) && c !in board
    requires HasRotationalSymmetry(base) || Canonical(base) in seen
    ensures Redundant(n, edges, c)
  {
    if HasRotationalSymmetry(base) {
      TurnedSymmetric(base, r);
    } else {
      var d := seen[Canonical(base)];
      CanonicalTurned(base, r);
      CanonicalExact(CellFaces(d, n, edges), CellFaces(c, n, edges));
    }
  }

  /** When every cell was cut into a piece of its own, none was redundant. */
  lemma CutNotRedundant(n: nat, edges: map<EdgeSlot, int>, pieces: Pieces, board: Grid, c: Cell)
    requires Coloured(n, edges) && Cut(n, edges, pieces, board) && AllDistinct(pieces) && DistinctIds(board)
    requires (forall d :: InGrid(d, n) ==> d in board) && InGrid(c, n)
    ensures !Redundant(n, edges, c)
  {
    TurnedSymmetric(pieces[board[c].id], board[c].rot);
    forall d | InGrid(d, n) && d != c ensures !RotationOf(CellFaces(d, n, edges), CellFaces(c, n, edges)) {
      TurnedAlike(pieces[board[d].id], pieces[board[c].id], board[d].rot, board[c].rot);
    }
  }

  lemma NoneRedundant(n: nat, edges: map<EdgeSlot, int>, cells: seq<Cell>, ids: seq<int>, pieces: Pieces, board: Grid)
    requires Coloured(n, edges) && Cut(n, edges, pieces, board) && AllDistinct(pieces)
    requires |cells| == |ids| && NoDup(ids) && CutSoFar(cells, ids, |cells|, pieces, board)
    requires forall c :: c in cells <==> InGrid(c, n)
    ensures forall c :: InGrid(c, n) ==> !Redundant(n, edges, c)
  {
    CutComplete(n, cells, ids, pieces, board);
    forall c | InGrid(c, n) ensures !Redundant(n, edges, c) {
      CutNotRedundant(n, edges, pieces, board, c);
    }
  }

  /** A drawn instance: balanced non-grey edges, distinct asymmetric pieces `1 .. n*n`, and the planted solution. */
  ghost predicate GoodDraw(n: nat, k: nat, m: nat, edges: map<EdgeSlot, int>, board: Grid, pieces: Pieces) {
    && Coloured(n, edges) && Cut(n, edges, pieces, board)
    && Solves(n, pieces, board) && InnerGreyFree(n, pieces, board)
    && AllDistinct(pieces) && (forall p :: p in pieces <==> 1 <= p <= n * n)
    && k > 0 && m > 0 && FairlyDrawn(n, k, m, edges)
  }

  /**
   The edges along the outline carry exactly the frame colours `k+1 .. k+m`, the others the inner colours
   `1 .. k`; each frame colour has its share of the 4(n-1) outline edges, each inner colour of the rest.
   */
  ghost predicate FairlyDrawn(n: nat, k: nat, m: nat, edges: map<EdgeSlot, int>)
    requires k > 0 && m > 0
  {
    && (forall s :: s in edges <==> IsSlot(n, s))
    && (forall s :: s in edges ==> if IsFrame(n, s) then k < edges[s] <= k + m else 1 <= edges[s] <= k)
    && (n >= 1 ==> |edges| >= 4 * (n - 1))
    && (n >= 1 ==> forall c :: k < c <= k + m ==> FairShare(|SlotsOf(edges, c)|, 4 * (n - 1), m))
    && (n >= 1 ==> forall c :: 1 <= c <= k ==> FairShare(|SlotsOf(edges, c)|, |edges| - 4 * (n - 1), k))
  }

  lemma MergedSlots(frame: map<EdgeSlot, int>, inner: map<EdgeSlot, int>, c: int)
    requires frame.Keys !! inner.Keys
    ensures |frame + inner| == |frame| + |inner|
    ensures (forall s :: s in inner ==> inner[s] != c) ==> SlotsOf(frame + inner, c) == SlotsOf(frame, c)
    ensures (forall s :: s in frame ==> frame[s] != c) ==> SlotsOf(frame + inner, c) == SlotsOf(inner, c)
  {
    assert (frame + inner).Keys == frame.Keys + inner.Keys;
  }

  lemma MergedFair(n: nat, k: nat, m: nat, frame: map<EdgeSlot, int>, inner: map<EdgeSlot, int>)
    requires n >= 1 && k > 0 && m > 0 && |frame| == 4 * (n - 1) && frame.Keys !! inner.Keys
    requires Balanced(Palette(k, m), frame) && Balanced(Palette(0, k), inner)
    ensures |frame + inner| == |frame| + |inner|
    ensures forall c :: k < c <= k + m ==> FairShare(|SlotsOf(frame + inner, c)|, |frame|, m)
    ensures forall c :: 1 <= c <= k ==> FairShare(|SlotsOf(frame + inner, c)|, |inner|, k)
  {
    MergedSlots(frame, inner, 0);
    forall c | k < c <= k + m ensures FairShare(|SlotsOf(frame + inner, c)|, |frame|, m) {
      assert Palette(k, m)[c - k - 1] == c;
      MergedSlots(frame, inner, c);
    }
    forall c | 1 <= c <= k ensures FairShare(|SlotsOf(frame + inner, c)|, |inner|, k) {
      assert Palette(0, k)[c - 1] == c;
      MergedSlots(frame, inner, c);
    }
  }

  method DrawEdges(n: nat, k: nat, m: nat) returns (edges: map<EdgeSlot, int>)
    requires k > 0 && m > 0
    ensures Coloured(n, edges) && FairlyDrawn(n, k, m, edges)
  {
    var frameSlots, innerSlots := EdgeSlots(n);
    var innerPalette, framePalette := Palette(0, k), Palette(k, m);
    var frame := AssignBalanced(frameSlots, framePalette);
    var inner := AssignBalanced(innerSlots, innerPalette);
    edges := frame + inner;
    assert forall s :: s in edges <==> IsSlot(n, s);
    if n >= 1 {
      FrameCount(n, frameSlots);
      MergedFair(n, k, m, frame, inner);
    }
  }

  datatype Pieced = NotCut(at: Cell) | Pieced(board: Grid, pieces: Pieces)

  /** The cutting loop: one cell after the other, each in an arbitrary rotation; a symmetric or repeated piece rejects the draw. */
  method CutBoard(n: nat, edges: map<EdgeSlot, int>, cells: seq<Cell>, ids: seq<int>) returns (r: Pieced)
    requires Coloured(n, edges) && |cells| == |ids| && NoDup(cells) && NoDup(ids)
    requires forall c :: c in cells <==> InGrid(c, n)
    ensures r.Pieced? ==> CutSoFar(cells, ids, |cells|, r.pieces, r.board) && Cut(n, edges, r.pieces, r.board) && AllDistinct(r.pieces)
    ensures r.NotCut? ==> InGrid(r.at, n) && Redundant(n, edges, r.at)
    ensures r.Pieced? ==> forall c :: InGrid(c, n) ==> !Redundant(n, edges, c)
  {
    var pieces: Pieces, board: Grid, seen: map<Quad, Cell> := map[], map[], map[];
    for idx := 0 to |cells|
      invariant CutSoFar(cells, ids, idx, pieces, board)
      invariant Cut(n, edges, pieces, board)
      invariant SeenForms(n, edges, pieces, board, seen)
    {
      var c, pid := cells[idx], ids[idx];
      assert c in cells;
      var oriented := CellFaces(c, n, edges);
      var rot: int :| 0 <= rot < 4;
      var base := Unrotate(oriented, rot);
      RotateUnrotate(oriented, rot);
      assert pid !in ids[..idx] && c !in cells[..idx];
      if HasRotationalSymmetry(base) || Canonical(base) in seen {
        RejectedRedundant(n, edges, pieces, board, seen, base, c, rot);
        return NotCut(c);
      }
      CutSoFarStep(cells, ids, idx, pieces, board, base, rot);
      SeenFormsStep(n, edges, pieces, board, seen, pid, base, c, rot);
      CutStep(n, edges, pieces, board, c, pid, base, rot);
      seen := seen[Canonical(base) := c];
      pieces := pieces[pid := base];
      board := board[c := Placed(pid, rot)];
    }
    NoneRedundant(n, edges, cells, ids, pieces, board);
    r := Pieced(board, pieces);
  }

  lemma CutGood(n: nat, k: nat, m: nat, edges: map<EdgeSlot, int>, cells: seq<Cell>, ids: seq<int>, pieces: Pieces, board: Grid)
    requires k > 0 && m > 0 && Coloured(n, edges) && FairlyDrawn(n, k, m, edges)
    requires Cut(n, edges, pieces, board) && AllDistinct(pieces)
    requires |cells| == |ids| && NoDup(ids) && CutSoFar(cells, ids, |cells|, pieces, board)
    requires (forall c :: c in cells <==> InGrid(c, n)) && forall p :: p in ids <==> 1 <= p <= n * n
    ensures GoodDraw(n, k, m, edges, board, pieces)
  {
    CutComplete(n, cells, ids, pieces, board);
    CutSolves(n, edges, pieces, board);
    assert ids[..|ids|] == ids;
  }

  /** Draws the edges, shuffles the identifiers `1 .. n*n` and cuts the board. */
  method DrawInstance(n: nat, k: nat, m: nat) returns (d: Draw)
    ensures d == EmptyPalette <==> k == 0 || m == 0
    ensures d.Drawn? ==> GoodDraw(n, k, m, d.edges, d.board, d.pieces)
    ensures d.Drawn? ==> forall c :: InGrid(c, n) ==> !Redundant(n, d.edges, c)
    ensures d.Rejected? ==> k > 0 && m > 0 && Coloured(n, d.edges) && FairlyDrawn(n, k, m, d.edges)
    ensures d.Rejected? ==> InGrid(d.at, n) && Redundant(n, d.edges, d.at)
  {
    if k == 0 || m == 0 {
      return EmptyPalette;
    }
    var edges := DrawEdges(n, k, m);
    CellsAll(n, n);
    var cells := Cells(n, n);
    var numbers := Palette(0, n * n);
    var ids := Shuffle(numbers);
    NoDupShuffled(numbers, ids);
    IdsShuffled(n * n, ids);
    var r := CutBoard(n, edges, cells, ids);
    if r.NotCut? {
      return Rejected(edges, r.at);
    }
    CutGood(n, k, m, edges, cells, ids, r.pieces, r.board);
    d := Drawn(edges, r.board, r.pieces);
  }

  lemma CutStep(n: nat, edges: map<EdgeSlot, int>, pieces: Pieces, board: Grid, c: Cell, pid: int, base: Quad, r: int)
    requires Coloured(n, edges) && Cut(n, edges, pieces, board) && InGrid(c, n) && 0 <= r < 4
    requires pid !in pieces && Faces(base, r) == CellFaces(c, n, edges)
    ensures Cut(n, edges, pieces[pid := base], board[c := Placed(pid, r)])
  {
  }

  lemma IdsShuffled(total: nat, ids: seq<int>)
    requires multiset(ids) == multiset(Palette(0, total))
    ensures forall p :: p in ids <==> 1 <= p <= total
  {
    forall p ensures p in ids <==> 1 <= p <= total {
      assert p in multiset(ids) <==> p in multiset(Palette(0, total));
      if 1 <= p <= total { assert Palette(0, total)[p - 1] == p; }
    }
  }
}
