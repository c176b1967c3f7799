/**
 The variables and clauses of `encode` in `tools/root_to_cnf.py`, and the theorem about the whole
 encoder: its formula is satisfiable exactly when the empty cells can be filled.
 */
module RootToCnf {
  import opened Puzzle
  import opened CnfModel
  import opened CompletionCnf
  import opened RootTables

  // ------------------------------------------------------------------
  // Variables
  // ------------------------------------------------------------------

  /** `v` numbers the items consecutively from `first`, in insertion order. */
  ghost predicate NumberedFrom<T(!new)>(v: map<T, nat>, items: seq<T>, first: nat) {
    && (forall t :: t in v <==> t in items)
    && forall n :: 0 <= n < |items| ==> items[n] in v && v[items[n]] == first + n
  }

  lemma NumberedRange<T(!new)>(v: map<T, nat>, items: seq<T>, first: nat)
    requires NumberedFrom(v, items, first)
    ensures NoDup(items)
    ensures forall t :: t in v ==> first <= v[t] < first + |items|
    ensures forall t, u :: t in v && u in v && v[t] == v[u] ==> t == u
  {
    forall t | t in v ensures exists n :: 0 <= n < |items| && items[n] == t && v[t] == first + n {
      assert t in items;
    }
  }

  lemma NumberedSnoc<T(!new)>(v: map<T, nat>, items: seq<T>, first: nat, t: T)
    requires NumberedFrom(v, items, first) && t !in items
    ensures NumberedFrom(v[t := first + |items|], items + [t], first)
  {
  }

  /** `(c, p, r)` for a listed cell and a kept candidate of that cell. */
  ghost predicate SlotListed(empties: seq<Cell>, kept: map<Cell, seq<Placed>>, s: Slot) {
    s.cell in empties && s.cell in kept && s.placed in kept[s.cell]
  }

  ghost predicate TintListed(edges: seq<Edge>, domain: map<Edge, seq<int>>, t: Tint) {
    t.edge in edges && t.edge in domain && t.colour in domain[t.edge]
  }

  /** The lists hold no item twice, and every key has its list. */
  ghost predicate Listed<K, T>(keys: seq<K>, lists: map<K, seq<T>>) {
    NoDup(keys) && forall k :: k in keys ==> k in lists && NoDup(lists[k])
  }

  /** One variable per kept candidate, cell by cell. */
  method PlacementVars(empties: seq<Cell>, kept: map<Cell, seq<Placed>>, cnf: Cnf)
    returns (xvar: map<Slot, nat>, slots: seq<Slot>)
    requires Listed(empties, kept) && cnf.nvars == 0
    modifies cnf
    ensures NumberedFrom(xvar, slots, 1) && forall s :: s in xvar <==> SlotListed(empties, kept, s)
    ensures cnf.nvars == |slots| && cnf.clauses == old(cnf.clauses) && cnf.empty == old(cnf.empty)
  {
    xvar, slots := map[], [];
    for i := 0 to |empties|
      invariant NumberedFrom(xvar, slots, 1)
      invariant cnf.nvars == |slots| && cnf.clauses == old(cnf.clauses) && cnf.empty == old(cnf.empty)
      invariant forall s :: s in slots <==> SlotListed(empties[..i], kept, s)
    {
      var c := empties[i];
      assert c in empties;
      var lst := kept[c];
      for k := 0 to |lst|
        invariant NumberedFrom(xvar, slots, 1)
        invariant cnf.nvars == |slots| && cnf.clauses == old(cnf.clauses) && cnf.empty == old(cnf.empty)
        invariant forall s :: s in slots <==> SlotListed(empties[..i], kept, s) || (s.cell == c && s.placed in lst[..k])
      {
        var s := Slot(c, lst[k]);
        var v := cnf.NewVar();
        NumberedSnoc(xvar, slots, 1, s);
        xvar := xvar[s := v];
        slots := slots + [s];
      }
      assert lst[..|lst|] == lst;
    }
    assert empties[..|empties|] == empties;
  }

  /** One variable per colour of each edge domain. */
  method ColourVars(edges: seq<Edge>, domain: map<Edge, seq<int>>, cnf: Cnf)
    returns (evar: map<Tint, nat>, tints: seq<Tint>)
    requires Listed(edges, domain)
    modifies cnf
    ensures NumberedFrom(evar, tints, old(cnf.nvars) + 1) && forall t :: t in evar <==> TintListed(edges, domain, t)
    ensures cnf.nvars == old(cnf.nvars) + |tints| && cnf.clauses == old(cnf.clauses) && cnf.empty == old(cnf.empty)
  {
    evar, tints := map[], [];
    for i := 0 to |edges|
      invariant NumberedFrom(evar, tints, old(cnf.nvars) + 1)
      invariant cnf.nvars == old(cnf.nvars) + |tints| && cnf.clauses == old(cnf.clauses) && cnf.empty == old(cnf.empty)
      invariant forall t :: t in tints <==> TintListed(edges[..i], domain, t)
    {
      var e := edges[i];
      assert e in edges;
      var cols := domain[e];
      for k := 0 to |cols|
        invariant NumberedFrom(evar, tints, old(cnf.nvars) + 1)
        invariant cnf.nvars == old(cnf.nvars) + |tints| && cnf.clauses == old(cnf.clauses) && cnf.empty == old(cnf.empty)
        invariant forall t :: t in tints <==> TintListed(edges[..i], domain, t) || (t.edge == e && t.colour in cols[..k])
      {
        var t := Tint(e, cols[k]);
        var v := cnf.NewVar();
        NumberedSnoc(evar, tints, old(cnf.nvars) + 1, t);
        evar := evar[t := v];
        tints := tints + [t];
      }
      assert cols[..|cols|] == cols;
    }
    assert edges[..|edges|] == edges;
  }

  // ------------------------------------------------------------------
  // Groups of literals
  // ------------------------------------------------------------------

  function Lits<T>(v: map<T, nat>, items: seq<T>): (lits: seq<int>)
    requires forall i :: 0 <= i < |items| ==> items[i] in v
    ensures |lits| == |items| && forall i :: 0 <= i < |items| ==> lits[i] == v[items[i]]
  {
    seq(|items|, i requires 0 <= i < |items| => v[items[i]] as int)
  }

  /** Exactly one literal of the list is true. */
  predicate One(m: set<int>, lits: seq<int>) { ClauseTrue(m, lits) && AtMostOne(m, lits) }

  predicate AllOne(m: set<int>, groups: seq<seq<int>>) { forall j :: 0 <= j < |groups| ==> One(m, groups[j]) }

  ghost predicate SomeOn<T(!new)>(m: set<int>, v: map<T, nat>, items: seq<T>) { exists t :: t in items && On(m, v, t) }

  ghost predicate NoTwoOn<T(!new)>(m: set<int>, v: map<T, nat>, items: seq<T>) {
    forall t, u :: t in items && u in items && On(m, v, t) && On(m, v, u) ==> t == u
  }

  /** Exactly one literal of a duplicate-free group is true when exactly one of its items is on. */
  lemma LitsOne<T(!new)>(m: set<int>, v: map<T, nat>, items: seq<T>)
    requires NoDup(items) && (forall i :: 0 <= i < |items| ==> items[i] in v) && forall t :: t in v ==> v[t] > 0
    ensures One(m, Lits(v, items)) <==> SomeOn(m, v, items) && NoTwoOn(m, v, items)
  {
    var lits := Lits(v, items);
    assert forall i :: 0 <= i < |items| ==> (LitTrue(m, lits[i]) <==> On(m, v, items[i]));
    if ClauseTrue(m, lits) {
      var i :| 0 <= i < |lits| && LitTrue(m, lits[i]);
      assert items[i] in items && On(m, v, items[i]);
    }
    if SomeOn(m, v, items) {
      var t :| t in items && On(m, v, t);
      var i :| 0 <= i < |items| && items[i] == t;
      assert LitTrue(m, lits[i]);
    }
    if AtMostOne(m, lits) {
      forall t, u | t in items && u in items && On(m, v, t) && On(m, v, u) ensures t == u {
        var i :| 0 <= i < |items| && items[i] == t;
        var j :| 0 <= j < |items| && items[j] == u;
        assert LitTrue(m, lits[i]) && LitTrue(m, lits[j]);
      }
    }
    if NoTwoOn(m, v, items) {
      forall i, j | 0 <= i < j < |lits| ensures !(LitTrue(m, lits[i]) && LitTrue(m, lits[j])) {
        assert items[i] in items && items[j] in items;
      }
    }
  }

  lemma AllOneSnoc(m: set<int>, groups: seq<seq<int>>, g: seq<int>)
    ensures AllOne(m, groups + [g]) <==> AllOne(m, groups) && One(m, g)
  {
    if AllOne(m, groups + [g]) {
      assert (groups + [g])[|groups|] == g;
      forall j | 0 <= j < |groups| ensures One(m, groups[j]) { assert (groups + [g])[j] == groups[j]; }
    }
  }

  // ------------------------------------------------------------------
  // Clauses
  // ------------------------------------------------------------------

  /** `cnf` states `ks` on the first `base` variables. */
  ghost predicate Represents(cnf: Cnf, base: nat, ks: seq<Constraint>)
    reads cnf
  {
    States(cnf.clauses, cnf.nvars, base, ks)
  }

  method AddClause(cnf: Cnf, lits: seq<int>, ghost base: nat, ghost ks: seq<Constraint>) returns (ghost ks': seq<Constraint>)
    requires Represents(cnf, base, ks) && Scoped(lits, base)
    modifies cnf
    ensures Represents(cnf, base, ks')
    ensures forall m: set<int> :: Meaning(m, ks') <==> Meaning(m, ks) && ClauseTrue(m, lits)
  {
    StatesAdd(cnf.clauses, cnf.nvars, base, ks, lits);
    cnf.Add(lits);
    ks' := ks + [OneOf(lits)];
    forall m: set<int> ensures Meaning(m, ks') <==> Meaning(m, ks) && ClauseTrue(m, lits) {
      MeaningSnoc(m, ks, OneOf(lits));
    }
  }

  /** The pair `add(list(lits)); amo(lits, ...)`. */
  method AddExactlyOne(cnf: Cnf, lits: seq<int>, pairwiseMax: int, ghost base: nat, ghost ks: seq<Constraint>)
    returns (ghost ks': seq<Constraint>)
    requires Represents(cnf, base, ks) && Scoped(lits, base)
    modifies cnf
    ensures Represents(cnf, base, ks')
    ensures forall m: set<int> :: Meaning(m, ks') <==> Meaning(m, ks) && One(m, lits)
  {
    ghost var ks1 := AddClause(cnf, lits, base, ks);
    StatesAmo(cnf.clauses, cnf.nvars, base, ks1, lits, pairwiseMax);
    cnf.Amo(lits, pairwiseMax);
    ks' := ks1 + [NoTwoOf(lits)];
    forall m: set<int> ensures Meaning(m, ks') <==> Meaning(m, ks) && One(m, lits) {
      MeaningSnoc(m, ks1, NoTwoOf(lits));
    }
  }

  lemma NeverTrue(m: set<int>)
    ensures !ClauseTrue(m, [])
  {
  }

  /** Adds the empty clause for every empty list: a cell without candidate, an edge without colour. */
  method AddDead<T>(cnf: Cnf, lists: seq<seq<T>>, ghost base: nat, ghost ks: seq<Constraint>)
    returns (dead: bool, ghost ks': seq<Constraint>)
    requires Represents(cnf, base, ks)
    modifies cnf
    ensures Represents(cnf, base, ks')
    ensures dead <==> exists j :: 0 <= j < |lists| && lists[j] == []
    ensures forall m: set<int> :: Meaning(m, ks') <==> Meaning(m, ks) && !dead
  {
    dead, ks' := false, ks;
    for i := 0 to |lists|
      invariant Represents(cnf, base, ks')
      invariant dead <==> exists j :: 0 <= j < i && lists[j] == []
      invariant forall m: set<int> :: Meaning(m, ks') <==> Meaning(m, ks) && !dead
    {
      if lists[i] == [] {
        ks' := AddClause(cnf, [], base, ks');
        dead := true;
        forall m: set<int> ensures !Meaning(m, ks') {
          NeverTrue(m);
        }
      }
    }
  }

  // ---- one group per key: cells, pieces, edges ----

  /** `lits` are the variables of all the items with key `k`, each once. */
  ghost predicate IsGroup<T(!new), K>(v: map<T, nat>, key: T -> K, k: K, lits: seq<int>) {
    exists items: seq<T> :: GroupItems(v, key, k, items) && lits == Lits(v, items)
  }

  ghost predicate GroupItems<T(!new), K>(v: map<T, nat>, key: T -> K, k: K, items: seq<T>)
    ensures GroupItems(v, key, k, items) ==> forall i :: 0 <= i < |items| ==> items[i] in v
  {
    && NoDup(items)
    && (forall t :: t in items <==> t in v && key(t) == k)
    && forall i :: 0 <= i < |items| ==> items[i] in items
  }

  ghost predicate Groups<T(!new), K>(v: map<T, nat>, key: T -> K, keys: seq<K>, groups: seq<seq<int>>) {
    |groups| == |keys| && forall j :: 0 <= j < |keys| ==> IsGroup(v, key, keys[j], groups[j])
  }

  ghost predicate KeyHit<T(!new), K>(m: set<int>, v: map<T, nat>, key: T -> K, k: K) { exists t :: On(m, v, t) && key(t) == k }

  ghost predicate KeyOnce<T(!new), K>(m: set<int>, v: map<T, nat>, key: T -> K, k: K) {
    forall t, u :: On(m, v, t) && On(m, v, u) && key(t) == k && key(u) == k ==> t == u
  }

  lemma GroupOne<T(!new), K>(m: set<int>, v: map<T, nat>, key: T -> K, k: K, lits: seq<int>)
    requires IsGroup(v, key, k, lits) && forall t :: t in v ==> v[t] > 0
    ensures One(m, lits) <==> KeyHit(m, v, key, k) && KeyOnce(m, v, key, k)
  {
    var items: seq<T> :| GroupItems(v, key, k, items) && lits == Lits(v, items);
    LitsOne(m, v, items);
  }

  /** All groups have exactly one true literal when every key is hit, and hit once. */
  lemma GroupsOne<T(!new), K>(m: set<int>, v: map<T, nat>, key: T -> K, keys: seq<K>, groups: seq<seq<int>>)
    requires Groups(v, key, keys, groups) && forall t :: t in v ==> v[t] > 0
    ensures AllOne(m, groups) <==> forall k :: k in keys ==> KeyHit(m, v, key, k) && KeyOnce(m, v, key, k)
  {
    forall j | 0 <= j < |keys|
      ensures One(m, groups[j]) <==> KeyHit(m, v, key, keys[j]) && KeyOnce(m, v, key, keys[j])
    {
      GroupOne(m, v, key, keys[j], groups[j]);
    }
    if AllOne(m, groups) {
      forall k | k in keys ensures KeyHit(m, v, key, k) && KeyOnce(m, v, key, k) {
        var j :| 0 <= j < |keys| && keys[j] == k;
        assert One(m, groups[j]);
      }
    }
  }

  lemma GroupScoped<T(!new), K>(v: map<T, nat>, key: T -> K, k: K, lits: seq<int>, base: nat)
    requires IsGroup(v, key, k, lits) && forall t :: t in v ==> 1 <= v[t] <= base
    ensures Scoped(lits, base)
  {
    var items: seq<T> :| GroupItems(v, key, k, items) && lits == Lits(v, items);
  }

  const SlotCell: Slot -> Cell := (s: Slot) => s.cell
  const SlotPiece: Slot -> int := (s: Slot) => s.placed.id
  const TintEdge: Tint -> Edge := (t: Tint) => t.edge

  function CellItems(c: Cell, lst: seq<Placed>): seq<Slot> { seq(|lst|, k requires 0 <= k < |lst| => Slot(c, lst[k])) }

  function EdgeItems(e: Edge, cols: seq<int>): seq<Tint> { seq(|cols|, k requires 0 <= k < |cols| => Tint(e, cols[k])) }

  lemma CellGroup(xvar: map<Slot, nat>, c: Cell, lst: seq<Placed>)
    requires NoDup(lst) && forall pl :: Slot(c, pl) in xvar <==> pl in lst
    ensures GroupItems(xvar, SlotCell, c, CellItems(c, lst))
  {
    var items := CellItems(c, lst);
    forall s ensures s in items <==> s in xvar && SlotCell(s) == c {
      if s in items {
        var k :| 0 <= k < |items| && items[k] == s;
        assert lst[k] in lst;
      }
      if s in xvar && s.cell == c {
        assert s == Slot(c, s.placed);
        var k :| 0 <= k < |lst| && lst[k] == s.placed;
        assert items[k] == s;
      }
    }
  }

  lemma EdgeGroup(evar: map<Tint, nat>, e: Edge, cols: seq<int>)
    requires NoDup(cols) && forall col :: Tint(e, col) in evar <==> col in cols
    ensures GroupItems(evar, TintEdge, e, EdgeItems(e, cols))
  {
    var items := EdgeItems(e, cols);
    forall t ensures t in items <==> t in evar && TintEdge(t) == e {
      if t in items {
        var k :| 0 <= k < |items| && items[k] == t;
        assert cols[k] in cols;
      }
      if t in evar && t.edge == e {
        assert t == Tint(e, t.colour);
        var k :| 0 <= k < |cols| && cols[k] == t.colour;
        assert items[k] == t;
      }
    }
  }

  ghost predicate InBounds<T(!new)>(v: map<T, nat>, base: nat) { forall t :: t in v ==> 1 <= v[t] <= base }

  /** One step of the cell and piece loops, with the group recorded. */
  method AddGroup(cnf: Cnf, lits: seq<int>, pairwiseMax: int, ghost base: nat, ghost ks: seq<Constraint>, ghost groups: seq<seq<int>>)
    returns (ghost ks': seq<Constraint>)
    requires Represents(cnf, base, ks) && Scoped(lits, base)
    modifies cnf
    ensures Represents(cnf, base, ks')
    ensures forall m: set<int> ::
      Meaning(m, ks') && AllOne(m, groups) <==> Meaning(m, ks) && AllOne(m, groups + [lits])
    ensures forall m: set<int> :: Meaning(m, ks') ==> Meaning(m, ks)
  {
    ks' := AddExactlyOne(cnf, lits, pairwiseMax, base, ks);
    forall m: set<int>
      ensures Meaning(m, ks') && AllOne(m, groups) <==> Meaning(m, ks) && AllOne(m, groups + [lits])
    {
      AllOneSnoc(m, groups, lits);
    }
  }

  lemma GroupsSnoc<T(!new), K>(v: map<T, nat>, key: T -> K, keys: seq<K>, i: nat, groups: seq<seq<int>>, lits: seq<int>)
    requires i < |keys| && Groups(v, key, keys[..i], groups) && IsGroup(v, key, keys[i], lits)
    ensures Groups(v, key, keys[..i + 1], groups + [lits])
    ensures forall m: set<int> :: AllOne(m, groups + [lits]) ==> AllOne(m, groups)
  {
    assert keys[..i + 1] == keys[..i] + [keys[i]];
    forall m: set<int> ensures AllOne(m, groups + [lits]) ==> AllOne(m, groups) {
      AllOneSnoc(m, groups, lits);
    }
  }

  lemma CellLits(empties: seq<Cell>, kept: map<Cell, seq<Placed>>, xvar: map<Slot, nat>, base: nat, c: Cell)
    requires Listed(empties, kept) && c in empties && InBounds(xvar, base)
    requires forall s :: s in xvar <==> SlotListed(empties, kept, s)
    ensures forall i :: 0 <= i < |kept[c]| ==> CellItems(c, kept[c])[i] in xvar
    ensures IsGroup(xvar, SlotCell, c, Lits(xvar, CellItems(c, kept[c])))
    ensures Scoped(Lits(xvar, CellItems(c, kept[c])), base)
  {
    forall pl ensures Slot(c, pl) in xvar <==> pl in kept[c] {
      assert SlotListed(empties, kept, Slot(c, pl)) <==> pl in kept[c];
    }
    CellGroup(xvar, c, kept[c]);
    GroupScoped(xvar, SlotCell, c, Lits(xvar, CellItems(c, kept[c])), base);
  }

  /** Exactly one piece per empty cell. */
  method AddCells(ghost rt: Root, cnf: Cnf, empties: seq<Cell>, kept: map<Cell, seq<Placed>>, xvar: map<Slot, nat>, pairwiseMax: int,
                  ghost base: nat, ghost ks: seq<Constraint>)
    returns (ghost ks': seq<Constraint>)
    requires ListsEmpties(rt, empties) && Listed(empties, kept) && forall s :: s in xvar <==> SlotListed(empties, kept, s)
    requires Represents(cnf, base, ks) && InBounds(xvar, base)
    modifies cnf
    ensures Represents(cnf, base, ks')
    ensures forall m: set<int> :: Meaning(m, ks') <==> Meaning(m, ks) && CellsFilled(rt, m, xvar) && OneSlotPerCell(m, xvar)
  {
    ghost var groups;
    ks', groups := AddCellGroups(cnf, empties, kept, xvar, pairwiseMax, base, ks);
    forall m: set<int> ensures AllOne(m, groups) <==> CellsFilled(rt, m, xvar) && OneSlotPerCell(m, xvar) {
      CellsStated(rt, m, xvar, empties, groups, base);
    }
  }

  method AddCellGroups(cnf: Cnf, empties: seq<Cell>, kept: map<Cell, seq<Placed>>, xvar: map<Slot, nat>, pairwiseMax: int,
                       ghost base: nat, ghost ks: seq<Constraint>)
    returns (ghost ks': seq<Constraint>, ghost groups: seq<seq<int>>)
    requires Listed(empties, kept) && forall s :: s in xvar <==> SlotListed(empties, kept, s)
    requires Represents(cnf, base, ks) && InBounds(xvar, base)
    modifies cnf
    ensures Represents(cnf, base, ks') && Groups(xvar, SlotCell, empties, groups)
    ensures forall m: set<int> :: Meaning(m, ks') <==> Meaning(m, ks) && AllOne(m, groups)
  {
    ks', groups := ks, [];
    for i := 0 to |empties|
      invariant Represents(cnf, base, ks') && Groups(xvar, SlotCell, empties[..i], groups)
      invariant forall m: set<int> :: Meaning(m, ks') <==> Meaning(m, ks) && AllOne(m, groups)
    {
      var c := empties[i];
      assert c in empties;
      CellLits(empties, kept, xvar, base, c);
      var lits := Lits(xvar, CellItems(c, kept[c]));
      ks' := AddGroup(cnf, lits, pairwiseMax, base, ks', groups);
      GroupsSnoc(xvar, SlotCell, empties, i, groups, lits);
      groups := groups + [lits];
    }
    assert empties[..|empties|] == empties;
  }

  /** The placement variables of each free piece, in allocation order. */
  method ByPiece(free: seq<int>, xvar: map<Slot, nat>, slots: seq<Slot>) returns (byPiece: map<int, seq<int>>)
    requires NumberedFrom(xvar, slots, 1) && NoDup(slots)
    requires forall s :: s in slots ==> s.placed.id in free
    ensures forall p :: p in free ==> p in byPiece && IsGroup(xvar, SlotPiece, p, byPiece[p])
  {
    byPiece := map p | p in free :: [];
    ghost var items: map<int, seq<Slot>> := map p | p in free :: [];
    for n := 0 to |slots|
      invariant forall p :: p in byPiece <==> p in free
      invariant forall p :: p in items <==> p in free
      invariant forall p :: p in free ==> PieceItems(xvar, slots[..n], p, items[p], byPiece[p])
    {
      var s := slots[n];
      assert s in slots;
      var p := s.placed.id;
      byPiece := byPiece[p := byPiece[p] + [xvar[s]]];
      items := items[p := items[p] + [s]];
    }
    assert slots[..|slots|] == slots;
    forall p | p in free ensures IsGroup(xvar, SlotPiece, p, byPiece[p]) {
      assert GroupItems(xvar, SlotPiece, p, items[p]);
      assert byPiece[p] == Lits(xvar, items[p]);
    }
  }

  /** `lits` are the variables of `items`, the slots of piece `p` among those seen. */
  ghost predicate PieceItems(xvar: map<Slot, nat>, seen: seq<Slot>, p: int, items: seq<Slot>, lits: seq<int>) {
    && NoDup(items)
    && (forall s :: s in items <==> s in seen && s.placed.id == p)
    && |lits| == |items|
    && forall i :: 0 <= i < |items| ==> items[i] in xvar && lits[i] == xvar[items[i]]
  }

  /** Exactly one cell per free piece. */
  method AddPieces(ghost rt: Root, cnf: Cnf, free: seq<int>, byPiece: map<int, seq<int>>, ghost xvar: map<Slot, nat>, pairwiseMax: int,
                   ghost base: nat, ghost ks: seq<Constraint>)
    returns (dead: bool, ghost ks': seq<Constraint>)
    requires ListsFree(rt, free) && forall s :: s in xvar ==> s.placed.id in free
    requires Represents(cnf, base, ks) && InBounds(xvar, base)
    requires forall p :: p in free ==> p in byPiece && IsGroup(xvar, SlotPiece, p, byPiece[p])
    modifies cnf
    ensures Represents(cnf, base, ks')
    ensures forall m: set<int> :: Meaning(m, ks') <==> Meaning(m, ks) && PiecesUsed(rt, m, xvar) && OneSlotPerPiece(m, xvar)
    ensures dead ==> forall m: set<int> :: !Meaning(m, ks')
    ensures dead <==> exists p :: p in free && byPiece[p] == []
  {
    dead, ks' := false, ks;
    ghost var groups: seq<seq<int>> := [];
    for i := 0 to |free|
      invariant Represents(cnf, base, ks') && Groups(xvar, SlotPiece, free[..i], groups)
      invariant forall m: set<int> :: Meaning(m, ks') <==> Meaning(m, ks) && AllOne(m, groups)
      invariant dead ==> forall m: set<int> :: !Meaning(m, ks')
      invariant dead <==> exists p :: p in free[..i] && byPiece[p] == []
    {
      assert free[..i + 1] == free[..i] + [free[i]];
      var p := free[i];
      assert p in free;
      var lits := byPiece[p];
      GroupScoped(xvar, SlotPiece, p, lits, base);
      if lits == [] {
        ks' := AddClause(cnf, [], base, ks');
        dead := true;
        forall m: set<int> ensures !Meaning(m, ks') && !AllOne(m, groups + [lits]) {
          NeverTrue(m);
          AllOneSnoc(m, groups, lits);
        }
      } else {
        ks' := AddGroup(cnf, lits, pairwiseMax, base, ks', groups);
      }
      GroupsSnoc(xvar, SlotPiece, free, i, groups, lits);
      groups := groups + [lits];
    }
    assert free[..|free|] == free;
    forall m: set<int> ensures AllOne(m, groups) <==> PiecesUsed(rt, m, xvar) && OneSlotPerPiece(m, xvar) {
      PiecesStated(rt, m, xvar, free, groups, base);
    }
  }

  /** One step of the edge loop; an edge without colour is skipped, its empty clause is already there. */
  method AddEdge(cnf: Cnf, lits: seq<int>, pairwiseMax: int, ghost base: nat, ghost ks: seq<Constraint>, ghost groups: seq<seq<int>>)
    returns (ghost ks': seq<Constraint>)
    requires Represents(cnf, base, ks) && Scoped(lits, base)
    requires lits == [] ==> forall m: set<int> :: !Meaning(m, ks)
    modifies cnf
    ensures Represents(cnf, base, ks')
    ensures forall m: set<int> ::
      Meaning(m, ks') && AllOne(m, groups) <==> Meaning(m, ks) && AllOne(m, groups + [lits])
    ensures forall m: set<int> :: Meaning(m, ks') ==> Meaning(m, ks)
  {
    ks' := ks;
    if lits != [] {
      ks' := AddGroup(cnf, lits, pairwiseMax, base, ks, groups);
    } else {
      forall m: set<int> ensures AllOne(m, groups + [lits]) ==> AllOne(m, groups) {
        AllOneSnoc(m, groups, lits);
      }
    }
  }

  lemma EdgeLits(edges: seq<Edge>, domain: map<Edge, seq<int>>, evar: map<Tint, nat>, base: nat, e: Edge)
    requires Listed(edges, domain) && e in edges && InBounds(evar, base)
    requires forall t :: t in evar <==> TintListed(edges, domain, t)
    ensures forall i :: 0 <= i < |domain[e]| ==> EdgeItems(e, domain[e])[i] in evar
    ensures IsGroup(evar, TintEdge, e, Lits(evar, EdgeItems(e, domain[e])))
    ensures Scoped(Lits(evar, EdgeItems(e, domain[e])), base)
  {
    forall col ensures Tint(e, col) in evar <==> col in domain[e] {
      assert TintListed(edges, domain, Tint(e, col)) <==> col in domain[e];
    }
    EdgeGroup(evar, e, domain[e]);
    GroupScoped(evar, TintEdge, e, Lits(evar, EdgeItems(e, domain[e])), base);
  }

  /** Exactly one colour per free edge. */
  method AddEdges(ghost rt: Root, cnf: Cnf, edges: seq<Edge>, domain: map<Edge, seq<int>>, evar: map<Tint, nat>, pairwiseMax: int,
                  ghost base: nat, ghost ks: seq<Constraint>)
    returns (ghost ks': seq<Constraint>)
    requires ListsEdges(rt, edges) && Listed(edges, domain) && forall t :: t in evar <==> TintListed(edges, domain, t)
    requires Represents(cnf, base, ks) && InBounds(evar, base)
    requires (forall e :: e in edges ==> domain[e] != []) || forall m: set<int> :: !Meaning(m, ks)
    modifies cnf
    ensures Represents(cnf, base, ks')
    ensures forall m: set<int> :: Meaning(m, ks') <==> Meaning(m, ks) && EdgesTinted(rt, m, evar) && OneTintPerEdge(m, evar)
  {
    ghost var groups;
    ks', groups := AddEdgeGroups(cnf, edges, domain, evar, pairwiseMax, base, ks);
    forall m: set<int> ensures AllOne(m, groups) <==> EdgesTinted(rt, m, evar) && OneTintPerEdge(m, evar) {
      EdgesStated(rt, m, evar, edges, groups, base);
    }
  }

  method AddEdgeGroups(cnf: Cnf, edges: seq<Edge>, domain: map<Edge, seq<int>>, evar: map<Tint, nat>, pairwiseMax: int,
                       ghost base: nat, ghost ks: seq<Constraint>)
    returns (ghost ks': seq<Constraint>, ghost groups: seq<seq<int>>)
    requires Listed(edges, domain) && forall t :: t in evar <==> TintListed(edges, domain, t)
    requires Represents(cnf, base, ks) && InBounds(evar, base)
    requires (forall e :: e in edges ==> domain[e] != []) || forall m: set<int> :: !Meaning(m, ks)
    modifies cnf
    ensures Represents(cnf, base, ks') && Groups(evar, TintEdge, edges, groups)
    ensures forall m: set<int> :: Meaning(m, ks') <==> Meaning(m, ks) && AllOne(m, groups)
  {
    ks', groups := ks, [];
    for i := 0 to |edges|
      invariant Represents(cnf, base, ks') && Groups(evar, TintEdge, edges[..i], groups)
      invariant forall m: set<int> :: Meaning(m, ks') <==> Meaning(m, ks) && AllOne(m, groups)
    {
      var e := edges[i];
      assert e in edges;
      EdgeLits(edges, domain, evar, base, e);
      var lits := Lits(evar, EdgeItems(e, domain[e]));
      ks' := AddEdge(cnf, lits, pairwiseMax, base, ks', groups);
      GroupsSnoc(evar, TintEdge, edges, i, groups, lits);
      groups := groups + [lits];
    }
    assert edges[..|edges|] == edges;
  }

  // ---- placements imply the colours they show ----

  ghost predicate SideLinked(rt: Root, m: set<int>, xvar: map<Slot, nat>, evar: map<Tint, nat>, s: Slot, side: int)
    requires s.placed.id in rt.pieces
  {
    FreeSide(rt, s.cell, side) ==> (On(m, xvar, s) ==> On(m, evar, ShownTint(rt, s, side)))
  }

  ghost predicate SlotLinked(rt: Root, m: set<int>, xvar: map<Slot, nat>, evar: map<Tint, nat>, s: Slot, sides: nat)
    requires s.placed.id in rt.pieces
  {
    forall side :: 0 <= side < sides ==> SideLinked(rt, m, xvar, evar, s, side)
  }

  ghost predicate Linked(rt: Root, m: set<int>, xvar: map<Slot, nat>, evar: map<Tint, nat>, slots: seq<Slot>)
    requires SlotsKnown(rt, xvar) && forall s :: s in slots ==> s in xvar
  {
    forall s :: s in slots ==> SlotLinked(rt, m, xvar, evar, s, 4)
  }

  lemma ShownInTable(rt: Root, evar: map<Tint, nat>, s: Slot, side: int)
    requires WellKeyed(rt) && Kept(rt, s) && FreeSide(rt, s.cell, side)
    requires forall t: Tint :: IsFreeEdge(rt, t.edge) && InDomain(rt, t.edge, t.colour) ==> t in evar
    ensures ShownTint(rt, s, side) in evar
  {
    EdgeShared(s.cell, side);
    NeighbourBack(s.cell, side);
  }

  /** Every colour the slot shows on a free side has its variable. */
  ghost predicate SlotTinted(rt: Root, evar: map<Tint, nat>, s: Slot) {
    s.placed.id in rt.pieces && forall side :: FreeSide(rt, s.cell, side) ==> ShownTint(rt, s, side) in evar
  }

  ghost predicate OpenSides(rt: Root, c: Cell, perSide: seq<Wanted>) {
    |perSide| == 4 && forall side :: 0 <= side < 4 ==> (perSide[side] == Open <==> FreeSide(rt, c, side))
  }

  /** The implications of one placement. */
  method LinkSlot(rt: Root, cnf: Cnf, s: Slot, perSide: seq<Wanted>, xvar: map<Slot, nat>, evar: map<Tint, nat>,
                  ghost base: nat, ghost ks: seq<Constraint>)
    returns (ghost ks': seq<Constraint>)
    requires s in xvar && SlotTinted(rt, evar, s) && OpenSides(rt, s.cell, perSide)
    requires InBounds(xvar, base) && InBounds(evar, base) && Represents(cnf, base, ks)
    modifies cnf
    ensures Represents(cnf, base, ks')
    ensures forall m: set<int> :: Meaning(m, ks') <==> Meaning(m, ks) && SlotLinked(rt, m, xvar, evar, s, 4)
  {
    ks' := ks;
    var f := Faces(rt.pieces[s.placed.id], s.placed.rot);
    for side := 0 to 4
      invariant Represents(cnf, base, ks')
      invariant forall m: set<int> :: Meaning(m, ks') <==> Meaning(m, ks) && SlotLinked(rt, m, xvar, evar, s, side)
    {
      if perSide[side] == Open {
        var t := Tint(EdgeOf(s.cell, side), f[side]);
        assert t == ShownTint(rt, s, side);
        var x: int := xvar[s];
        ks' := AddClause(cnf, [-x, evar[t]], base, ks');
        forall m: set<int> ensures ClauseTrue(m, [-x, evar[t]]) <==> SideLinked(rt, m, xvar, evar, s, side) {
          ImplyTrue(m, x, evar[t]);
        }
      }
      forall m: set<int>
        ensures SlotLinked(rt, m, xvar, evar, s, side + 1) <==>
                  SlotLinked(rt, m, xvar, evar, s, side) && SideLinked(rt, m, xvar, evar, s, side)
      {
        if SlotLinked(rt, m, xvar, evar, s, side) && SideLinked(rt, m, xvar, evar, s, side) {
          forall d | 0 <= d < side + 1 ensures SideLinked(rt, m, xvar, evar, s, d) {
            assert d < side || d == side;
          }
        }
      }
    }
  }

  lemma LinkedSnoc(rt: Root, m: set<int>, xvar: map<Slot, nat>, evar: map<Tint, nat>, slots: seq<Slot>, s: Slot)
    requires SlotsKnown(rt, xvar) && s in xvar && forall t :: t in slots ==> t in xvar
    ensures Linked(rt, m, xvar, evar, slots + [s]) <==> Linked(rt, m, xvar, evar, slots) && SlotLinked(rt, m, xvar, evar, s, 4)
  {
    assert forall t :: t in slots + [s] <==> t in slots || t == s;
  }

  /** Placement implies presented colour, for every kept candidate and free side. */
  method AddLinks(rt: Root, cnf: Cnf, empties: seq<Cell>, kept: map<Cell, seq<Placed>>, fixed: map<Cell, seq<Wanted>>,
                  xvar: map<Slot, nat>, evar: map<Tint, nat>, ghost base: nat, ghost ks: seq<Constraint>)
    returns (ghost ks': seq<Constraint>)
    requires SlotsKnown(rt, xvar) && forall s :: s in xvar ==> SlotTinted(rt, evar, s) && s.cell in empties
    requires forall c :: c in empties ==> c in kept && c in fixed && OpenSides(rt, c, fixed[c])
    requires forall c, pl :: c in empties ==> (pl in kept[c] <==> Slot(c, pl) in xvar)
    requires InBounds(xvar, base) && InBounds(evar, base) && Represents(cnf, base, ks)
    modifies cnf
    ensures Represents(cnf, base, ks')
    ensures forall m: set<int> :: Meaning(m, ks') <==> Meaning(m, ks) && PlacementsTint(rt, m, xvar, evar)
  {
    ks' := ks;
    ghost var done: seq<Slot> := [];
    for i := 0 to |empties|
      invariant Represents(cnf, base, ks')
      invariant forall s :: s in done <==> s in xvar && s.cell in empties[..i]
      invariant forall m: set<int> :: Meaning(m, ks') <==> Meaning(m, ks) && Linked(rt, m, xvar, evar, done)
    {
      var c := empties[i];
      assert c in empties;
      var lst := kept[c];
      for k := 0 to |lst|
        invariant Represents(cnf, base, ks')
        invariant forall s :: s in done <==> s in xvar && (s.cell in empties[..i] || (s.cell == c && s.placed in lst[..k]))
        invariant forall m: set<int> :: Meaning(m, ks') <==> Meaning(m, ks) && Linked(rt, m, xvar, evar, done)
      {
        assert lst[k] in lst;
        var s := Slot(c, lst[k]);
        ks' := LinkSlot(rt, cnf, s, fixed[c], xvar, evar, base, ks');
        forall m: set<int> ensures Meaning(m, ks') <==> Meaning(m, ks) && Linked(rt, m, xvar, evar, done + [s]) {
          LinkedSnoc(rt, m, xvar, evar, done, s);
        }
        done := done + [s];
      }
      assert lst[..|lst|] == lst;
    }
    assert empties[..|empties|] == empties;
    forall m: set<int> ensures Linked(rt, m, xvar, evar, done) <==> PlacementsTint(rt, m, xvar, evar) {
      AllLinked(rt, m, xvar, evar, done);
    }
  }

  lemma AllLinked(rt: Root, m: set<int>, xvar: map<Slot, nat>, evar: map<Tint, nat>, slots: seq<Slot>)
    requires SlotsKnown(rt, xvar) && forall s :: s in slots <==> s in xvar
    ensures Linked(rt, m, xvar, evar, slots) <==> PlacementsTint(rt, m, xvar, evar)
  {
    if Linked(rt, m, xvar, evar, slots) {
      forall s, side | On(m, xvar, s) && FreeSide(rt, s.cell, side) ensures On(m, evar, ShownTint(rt, s, side)) {
        assert SlotLinked(rt, m, xvar, evar, s, 4);
        assert SideLinked(rt, m, xvar, evar, s, side);
      }
    }
  }

  // ------------------------------------------------------------------
  // The whole encoder
  // ------------------------------------------------------------------

  lemma CellsStated(rt: Root, m: set<int>, xvar: map<Slot, nat>, empties: seq<Cell>, groups: seq<seq<int>>, base: nat)
    requires ListsEmpties(rt, empties) && Groups(xvar, SlotCell, empties, groups) && InBounds(xvar, base)
    requires forall s :: s in xvar ==> s.cell in empties
    ensures AllOne(m, groups) <==> CellsFilled(rt, m, xvar) && OneSlotPerCell(m, xvar)
  {
    GroupsOne(m, xvar, SlotCell, empties, groups);
    forall c ensures KeyHit(m, xvar, SlotCell, c) <==> CellFilled(m, xvar, c) {}
    if AllOne(m, groups) {
      forall s, t | On(m, xvar, s) && On(m, xvar, t) && s.cell == t.cell ensures s == t {
        assert KeyOnce(m, xvar, SlotCell, s.cell);
      }
    }
  }

  lemma PiecesStated(rt: Root, m: set<int>, xvar: map<Slot, nat>, free: seq<int>, groups: seq<seq<int>>, base: nat)
    requires ListsFree(rt, free) && Groups(xvar, SlotPiece, free, groups) && InBounds(xvar, base)
    requires forall s :: s in xvar ==> s.placed.id in free
    ensures AllOne(m, groups) <==> PiecesUsed(rt, m, xvar) && OneSlotPerPiece(m, xvar)
  {
    GroupsOne(m, xvar, SlotPiece, free, groups);
    if PiecesUsed(rt, m, xvar) && OneSlotPerPiece(m, xvar) {
      forall p | p in free ensures KeyHit(m, xvar, SlotPiece, p) && KeyOnce(m, xvar, SlotPiece, p) {
        assert PieceUsed(m, xvar, p);
        var s :| On(m, xvar, s) && s.placed.id == p;
        assert SlotPiece(s) == p;
      }
    }
    if AllOne(m, groups) {
      forall p | IsFree(rt, p) ensures PieceUsed(m, xvar, p) {
        assert KeyHit(m, xvar, SlotPiece, p);
      }
      forall s, t | On(m, xvar, s) && On(m, xvar, t) && s.placed.id == t.placed.id ensures s == t {
        assert s.placed.id in free && KeyOnce(m, xvar, SlotPiece, s.placed.id);
        assert SlotPiece(s) == s.placed.id && SlotPiece(t) == s.placed.id;
      }
    }
  }

  lemma EdgesStated(rt: Root, m: set<int>, evar: map<Tint, nat>, edges: seq<Edge>, groups: seq<seq<int>>, base: nat)
    requires ListsEdges(rt, edges) && Groups(evar, TintEdge, edges, groups) && InBounds(evar, base)
    requires forall t :: t in evar ==> t.edge in edges
    ensures AllOne(m, groups) <==> EdgesTinted(rt, m, evar) && OneTintPerEdge(m, evar)
  {
    GroupsOne(m, evar, TintEdge, edges, groups);
    forall e ensures KeyHit(m, evar, TintEdge, e) <==> EdgeTinted(m, evar, e) {}
    if AllOne(m, groups) {
      forall t, u | On(m, evar, t) && On(m, evar, u) && t.edge == u.edge ensures t == u {
        assert KeyOnce(m, evar, TintEdge, t.edge);
      }
    }
  }

  /** The filling with every rotation replaced by the first one that shows the same faces. */
  function CanonicalGrid(rt: Root, sol: Grid): Grid
    requires SolReady(rt, sol)
  {
    map c | c in sol :: SlotOf(rt, sol, c).placed
  }

  datatype Encoding = Encoding(nvars: nat, clauses: seq<Clause>, xvar: map<Slot, nat>, forbid: bool, unsat: bool)

  datatype Outcome = Refused(empties: nat, free: nat) | Built(enc: Encoding)

  ghost predicate Satisfiable(cs: seq<Clause>) { exists m: set<int> :: Models(m, cs) }

  /** The models of the formula are, up to rotations that show the same faces, exactly the fillings the question wants. */
  ghost predicate Encodes(rt: Root, enc: Encoding)
    requires WellKeyed(rt)
  {
    && AllScoped(enc.clauses, enc.nvars)
    && (forall m: set<int> :: Models(m, enc.clauses) ==> OneSlotPerCell(m, enc.xvar) && Wants(rt, Decode(enc.xvar, m)))
    && (forall sol :: Wants(rt, sol) ==> SolReady(rt, sol) && Describes(rt, enc, sol))
    && (enc.unsat <==> DeadEnd(rt)) && (enc.unsat ==> !Satisfiable(enc.clauses))
  }

  /** After the filter and the pruning a cell is left without candidate, an edge without colour, or a piece without cell. */
  ghost predicate DeadEnd(rt: Root)
    requires WellKeyed(rt)
  {
    || (exists c :: IsEmpty(rt, c) && NoCandidate(rt, c))
    || (exists e :: IsFreeEdge(rt, e) && NoColour(rt, e))
    || (exists p :: p in FreeIds(rt) && NoCell(rt, p))
  }

  ghost predicate NoCandidate(rt: Root, c: Cell)
    requires WellKeyed(rt)
  {
    forall s: Slot :: s.cell == c ==> !Kept(rt, s)
  }

  ghost predicate NoColour(rt: Root, e: Edge)
    requires WellKeyed(rt) && 0 <= e.side < 4
  {
    forall colour :: !InDomain(rt, e, colour)
  }

  ghost predicate NoCell(rt: Root, p: int)
    requires WellKeyed(rt)
  {
    forall s: Slot :: s.placed.id == p ==> !Kept(rt, s)
  }

  /** No variable places piece `p`. */
  ghost predicate Unplaced(xvar: map<Slot, nat>, p: int) { forall s :: s in xvar ==> s.placed.id != p }

  lemma GroupEmpty(xvar: map<Slot, nat>, p: int, lits: seq<int>)
    requires IsGroup(xvar, SlotPiece, p, lits)
    ensures lits == [] <==> Unplaced(xvar, p)
  {
    var items: seq<Slot> :| GroupItems(xvar, SlotPiece, p, items) && lits == Lits(xvar, items);
    if items != [] {
      assert items[0] in items;
    }
  }

  /** The tables show a dead end exactly when there is one. */
  lemma DeadEndShows(rt: Root, empties: seq<Cell>, free: seq<int>, edges: seq<Edge>, kept: map<Cell, seq<Placed>>,
                     domain: map<Edge, seq<int>>, xvar: map<Slot, nat>, evar: map<Tint, nat>)
    requires WellKeyed(rt) && ListsEmpties(rt, empties) && ListsFree(rt, free) && ListsEdges(rt, edges)
    requires KeptTable(rt, kept) && DomainTable(rt, domain) && TableKeys(rt, xvar, evar)
    ensures DeadEnd(rt) <==>
      HasEmptyList(empties, kept) || HasEmptyList(edges, domain) || exists p :: p in free && Unplaced(xvar, p)
  {
    DeadCells(rt, empties, kept);
    DeadEdges(rt, edges, domain);
    DeadPieces(rt, free, xvar, evar);
  }

  lemma DeadCells(rt: Root, empties: seq<Cell>, kept: map<Cell, seq<Placed>>)
    requires WellKeyed(rt) && ListsEmpties(rt, empties) && KeptTable(rt, kept)
    ensures HasEmptyList(empties, kept) <==> exists c :: IsEmpty(rt, c) && NoCandidate(rt, c)
  {
    forall c | IsEmpty(rt, c) ensures kept[c] == [] <==> NoCandidate(rt, c) {
      assert ListsKept(rt, c, kept[c]);
      if kept[c] != [] {
        assert kept[c][0] in kept[c] && Kept(rt, Slot(c, kept[c][0]));
      }
      forall s: Slot | kept[c] == [] && s.cell == c ensures !Kept(rt, s) {
        assert s == Slot(c, s.placed) && s.placed !in kept[c];
      }
    }
    if HasEmptyList(empties, kept) {
      var i :| 0 <= i < |empties| && empties[i] in kept && kept[empties[i]] == [];
      assert empties[i] in empties && NoCandidate(rt, empties[i]);
    }
    if c :| IsEmpty(rt, c) && NoCandidate(rt, c) {
      var i :| 0 <= i < |empties| && empties[i] == c;
      assert kept[empties[i]] == [];
    }
  }

  lemma DeadEdges(rt: Root, edges: seq<Edge>, domain: map<Edge, seq<int>>)
    requires WellKeyed(rt) && ListsEdges(rt, edges) && DomainTable(rt, domain)
    ensures HasEmptyList(edges, domain) <==> exists e :: IsFreeEdge(rt, e) && NoColour(rt, e)
  {
    forall e | IsFreeEdge(rt, e) ensures domain[e] == [] <==> NoColour(rt, e) {
      assert ListsDomain(rt, e, domain[e]);
      if domain[e] != [] {
        assert domain[e][0] in domain[e] && InDomain(rt, e, domain[e][0]);
      }
    }
    if HasEmptyList(edges, domain) {
      var i :| 0 <= i < |edges| && edges[i] in domain && domain[edges[i]] == [];
      assert edges[i] in edges && NoColour(rt, edges[i]);
    }
    if e :| IsFreeEdge(rt, e) && NoColour(rt, e) {
      var i :| 0 <= i < |edges| && edges[i] == e;
      assert domain[edges[i]] == [];
    }
  }

  lemma DeadPieces(rt: Root, free: seq<int>, xvar: map<Slot, nat>, evar: map<Tint, nat>)
    requires WellKeyed(rt) && ListsFree(rt, free) && TableKeys(rt, xvar, evar)
    ensures (exists p :: p in free && Unplaced(xvar, p)) <==> exists p :: p in FreeIds(rt) && NoCell(rt, p)
  {
    forall p ensures Unplaced(xvar, p) <==> NoCell(rt, p) {
      if Unplaced(xvar, p) {
        forall s: Slot | s.placed.id == p ensures !Kept(rt, s) {
          assert s !in xvar;
        }
      }
    }
    if p :| p in free && Unplaced(xvar, p) {
      assert IsFree(rt, p) && p in FreeIds(rt) && NoCell(rt, p);
    }
    if p :| p in FreeIds(rt) && NoCell(rt, p) {
      assert IsFree(rt, p) && p in free && Unplaced(xvar, p);
    }
  }

  ghost predicate Describes(rt: Root, enc: Encoding, sol: Grid)
    requires SolReady(rt, sol)
  {
    exists m: set<int> :: Models(m, enc.clauses) && Decode(enc.xvar, m) == CanonicalGrid(rt, sol)
  }

  lemma DecodeCanonical(rt: Root, sol: Grid, xvar: map<Slot, nat>, m: set<int>)
    requires SolReady(rt, sol)
    requires forall s :: On(m, xvar, s) <==> s in xvar && Chosen(rt, sol, s)
    requires forall c :: c in sol ==> SlotOf(rt, sol, c) in xvar
    ensures Decode(xvar, m) == CanonicalGrid(rt, sol)
  {
    assert OneSlotPerCell(m, xvar);
    DecodeExact(xvar, m);
    forall c | c in sol ensures c in Decode(xvar, m) && Decode(xvar, m)[c] == SlotOf(rt, sol, c).placed {
      assert On(m, xvar, SlotOf(rt, sol, c));
    }
    forall c | c in Decode(xvar, m) ensures c in sol {
      assert On(m, xvar, Slot(c, Decode(xvar, m)[c]));
    }
  }

  lemma FillingDescribed(rt: Root, sol: Grid, xvar: map<Slot, nat>, evar: map<Tint, nat>, base: nat, ks: seq<Constraint>, enc: Encoding)
    requires WellKeyed(rt) && Wants(rt, sol)
    requires TableKeys(rt, xvar, evar) && Numbered(xvar, evar, base) && SlotsKnown(rt, xvar)
    requires States(enc.clauses, enc.nvars, base, ks) && enc.xvar == xvar
    requires forall m: set<int> :: Meaning(m, ks) <==> Stated(rt, m, xvar, evar)
    ensures SolReady(rt, sol) && Describes(rt, enc, sol)
  {
    FillingReady(rt, sol);
    FillsStated(rt, sol, xvar, evar, base);
    var m := ModelOf(rt, sol, xvar, evar);
    assert Meaning(m, ks) && Extends(m, enc.clauses, base);
    var m' :| Agree(m, m', base) && Models(m', enc.clauses);
    ModelOfExact(rt, sol, xvar, evar, base);
    assert forall s :: On(m', xvar, s) <==> On(m, xvar, s);
    forall c | c in sol ensures SlotOf(rt, sol, c) in xvar {
      FillingKept(rt, sol, c);
    }
    DecodeCanonical(rt, sol, xvar, m');
  }

  lemma ModelsWanted(rt: Root, m: set<int>, xvar: map<Slot, nat>, evar: map<Tint, nat>, base: nat, ks: seq<Constraint>, enc: Encoding)
    requires WellKeyed(rt) && SlotsKnown(rt, xvar) && forall s :: s in xvar ==> Candidate(rt, s.cell, s.placed)
    requires States(enc.clauses, enc.nvars, base, ks) && enc.xvar == xvar
    requires forall m: set<int> :: Meaning(m, ks) <==> Stated(rt, m, xvar, evar)
    requires Models(m, enc.clauses)
    ensures OneSlotPerCell(m, xvar) && Wants(rt, Decode(xvar, m))
  {
    assert Agree(m, m, base) && Extends(m, enc.clauses, base);
    StatedFills(rt, m, xvar, evar);
  }

  lemma EncodesAll(rt: Root, xvar: map<Slot, nat>, evar: map<Tint, nat>, base: nat, ks: seq<Constraint>, enc: Encoding)
    requires WellKeyed(rt) && SlotsKnown(rt, xvar)
    requires TableKeys(rt, xvar, evar) && Numbered(xvar, evar, base)
    requires States(enc.clauses, enc.nvars, base, ks) && enc.xvar == xvar
    requires forall m: set<int> :: Meaning(m, ks) <==> Stated(rt, m, xvar, evar)
    requires enc.unsat ==> forall m: set<int> :: !Meaning(m, ks)
    requires enc.unsat <==> DeadEnd(rt)
    ensures Encodes(rt, enc)
  {
    forall m: set<int> | Models(m, enc.clauses)
      ensures OneSlotPerCell(m, enc.xvar) && Wants(rt, Decode(enc.xvar, m)) && Meaning(m, ks)
    {
      assert Agree(m, m, base) && Extends(m, enc.clauses, base);
      ModelsWanted(rt, m, xvar, evar, base, ks, enc);
    }
    forall sol | Wants(rt, sol) ensures SolReady(rt, sol) && Describes(rt, enc, sol) {
      FillingDescribed(rt, sol, xvar, evar, base, ks, enc);
    }
  }

  /** Numbering both tables one after the other makes all variables distinct. */
  lemma BothNumbered(xvar: map<Slot, nat>, slots: seq<Slot>, evar: map<Tint, nat>, tints: seq<Tint>)
    requires NumberedFrom(xvar, slots, 1) && NumberedFrom(evar, tints, |slots| + 1)
    ensures Numbered(xvar, evar, |slots| + |tints|) && NoDup(slots)
    ensures InBounds(xvar, |slots| + |tints|) && InBounds(evar, |slots| + |tints|)
  {
    NumberedRange(xvar, slots, 1);
    NumberedRange(evar, tints, |slots| + 1);
  }

  lemma EmptyAbove(v: nat)
    ensures States([], v, v, []) && forall m: set<int> :: Meaning(m, [])
  {
    StatesNothing(v);
  }

  /** The variables are those of the listed candidates and colours, all within `base`. */
  ghost predicate VarsListed(empties: seq<Cell>, kept: map<Cell, seq<Placed>>, edges: seq<Edge>, domain: map<Edge, seq<int>>,
                             xvar: map<Slot, nat>, evar: map<Tint, nat>, base: nat)
  {
    && Listed(empties, kept) && Listed(edges, domain)
    && (forall s :: s in xvar <==> SlotListed(empties, kept, s))
    && (forall t :: t in evar <==> TintListed(edges, domain, t))
    && InBounds(xvar, base) && InBounds(evar, base)
  }

  ghost predicate HasEmptyList<K, T>(keys: seq<K>, lists: map<K, seq<T>>) {
    exists i :: 0 <= i < |keys| && keys[i] in lists && lists[keys[i]] == []
  }

  /** The lists of the keys, in key order. */
  function ListsOf<K, T>(keys: seq<K>, lists: map<K, seq<T>>): (r: seq<seq<T>>)
    requires forall k :: k in keys ==> k in lists
    ensures |r| == |keys| && forall i :: 0 <= i < |keys| ==> keys[i] in lists && r[i] == lists[keys[i]]
  {
    seq(|keys|, i requires 0 <= i < |keys| => assert keys[i] in keys; lists[keys[i]])
  }

  lemma EmptyListSeen<K, T>(keys: seq<K>, lists: map<K, seq<T>>)
    requires forall k :: k in keys ==> k in lists
    ensures HasEmptyList(keys, lists) <==> exists j :: 0 <= j < |keys| && ListsOf(keys, lists)[j] == []
    ensures HasEmptyList(keys, lists) || forall k :: k in keys ==> lists[k] != []
  {
    if !HasEmptyList(keys, lists) {
      forall k | k in keys ensures lists[k] != [] {
        var i :| 0 <= i < |keys| && keys[i] == k;
      }
    }
    if HasEmptyList(keys, lists) {
      var i :| 0 <= i < |keys| && keys[i] in lists && lists[keys[i]] == [];
      assert ListsOf(keys, lists)[i] == [];
    }
  }

  /** The exactly-one clauses and the empty clauses of the hopeless cases. */
  method EmitGroups(ghost rt: Root, cnf: Cnf, empties: seq<Cell>, free: seq<int>, edges: seq<Edge>,
                    kept: map<Cell, seq<Placed>>, domain: map<Edge, seq<int>>,
                    xvar: map<Slot, nat>, slots: seq<Slot>, evar: map<Tint, nat>, pairwiseMax: int, ghost base: nat)
    returns (unsat: bool, ghost ks: seq<Constraint>, ghost dead: bool)
    requires ListsEmpties(rt, empties) && ListsFree(rt, free) && ListsEdges(rt, edges)
    requires VarsListed(empties, kept, edges, domain, xvar, evar, base)
    requires forall s :: s in xvar ==> s.placed.id in free
    requires NumberedFrom(xvar, slots, 1) && NoDup(slots)
    requires cnf.clauses == [] && cnf.nvars == base
    modifies cnf
    ensures Represents(cnf, base, ks)
    ensures dead <==> HasEmptyList(empties, kept) || HasEmptyList(edges, domain)
    ensures forall m: set<int> :: Meaning(m, ks) <==>
      && !dead
      && CellsFilled(rt, m, xvar) && OneSlotPerCell(m, xvar)
      && PiecesUsed(rt, m, xvar) && OneSlotPerPiece(m, xvar)
      && EdgesTinted(rt, m, evar) && OneTintPerEdge(m, evar)
    ensures unsat ==> forall m: set<int> :: !Meaning(m, ks)
    ensures unsat <==> dead || exists p :: p in free && Unplaced(xvar, p)
  {
    EmptyAbove(base);
    var noCandidate, noColour, noCell;
    ghost var ks0: seq<Constraint> := [];
    noCandidate, ks := AddDead(cnf, ListsOf(empties, kept), base, ks0);
    noColour, ks := AddDead(cnf, ListsOf(edges, domain), base, ks);
    EmptyListSeen(empties, kept);
    EmptyListSeen(edges, domain);
    dead := noCandidate || noColour;
    ks := AddCells(rt, cnf, empties, kept, xvar, pairwiseMax, base, ks);
    var byPiece := ByPiece(free, xvar, slots);
    noCell, ks := AddPieces(rt, cnf, free, byPiece, xvar, pairwiseMax, base, ks);
    forall p | p in free ensures byPiece[p] == [] <==> Unplaced(xvar, p) {
      GroupEmpty(xvar, p, byPiece[p]);
    }
    ks := AddEdges(rt, cnf, edges, domain, evar, pairwiseMax, base, ks);
    unsat := noCandidate || noColour || noCell;
  }

  /** The clause phase: exactly `Stated`, for tables that hold what they should. */
  method EmitClauses(rt: Root, cnf: Cnf, empties: seq<Cell>, free: seq<int>, edges: seq<Edge>,
                     fixed: map<Cell, seq<Wanted>>, kept: map<Cell, seq<Placed>>, domain: map<Edge, seq<int>>,
                     xvar: map<Slot, nat>, slots: seq<Slot>, evar: map<Tint, nat>, pairwiseMax: int, ghost base: nat)
    returns (unsat: bool, ghost ks: seq<Constraint>)
    requires SlotsKnown(rt, xvar) && ListsEmpties(rt, empties) && ListsFree(rt, free) && ListsEdges(rt, edges)
    requires VarsListed(empties, kept, edges, domain, xvar, evar, base)
    requires forall s :: s in xvar ==> s.placed.id in free && SlotTinted(rt, evar, s)
    requires forall c :: c in empties ==> c in fixed && OpenSides(rt, c, fixed[c])
    requires NumberedFrom(xvar, slots, 1) && NoDup(slots)
    requires cnf.clauses == [] && cnf.nvars == base
    modifies cnf
    ensures Represents(cnf, base, ks)
    ensures forall m: set<int> :: Meaning(m, ks) <==> Stated(rt, m, xvar, evar)
    ensures unsat ==> forall m: set<int> :: !Meaning(m, ks)
    ensures unsat <==>
      HasEmptyList(empties, kept) || HasEmptyList(edges, domain) || exists p :: p in free && Unplaced(xvar, p)
  {
    ghost var groups, dead;
    unsat, groups, dead := EmitGroups(rt, cnf, empties, free, edges, kept, domain, xvar, slots, evar, pairwiseMax, base);
    SlotLists(empties, kept, xvar);
    ks := AddLinks(rt, cnf, empties, kept, fixed, xvar, evar, base, groups);
    forall m: set<int> | Stated(rt, m, xvar, evar) ensures !dead {
      StatedAlive(rt, m, empties, kept, edges, domain, xvar, evar);
    }
  }

  lemma SlotLists(empties: seq<Cell>, kept: map<Cell, seq<Placed>>, xvar: map<Slot, nat>)
    requires Listed(empties, kept) && forall s :: s in xvar <==> SlotListed(empties, kept, s)
    ensures forall c, pl :: c in empties ==> (pl in kept[c] <==> Slot(c, pl) in xvar)
  {
    forall c, pl | c in empties ensures pl in kept[c] <==> Slot(c, pl) in xvar {
      assert SlotListed(empties, kept, Slot(c, pl)) <==> pl in kept[c];
    }
  }

  /** An assignment that meets the statement leaves no cell without candidate and no edge without colour. */
  lemma StatedAlive(rt: Root, m: set<int>, empties: seq<Cell>, kept: map<Cell, seq<Placed>>, edges: seq<Edge>,
                    domain: map<Edge, seq<int>>, xvar: map<Slot, nat>, evar: map<Tint, nat>)
    requires SlotsKnown(rt, xvar) && ListsEmpties(rt, empties) && ListsEdges(rt, edges) && Stated(rt, m, xvar, evar)
    requires Listed(empties, kept) && Listed(edges, domain)
    requires forall s :: s in xvar <==> SlotListed(empties, kept, s)
    requires forall t :: t in evar <==> TintListed(edges, domain, t)
    ensures !HasEmptyList(empties, kept) && !HasEmptyList(edges, domain)
  {
    forall i | 0 <= i < |empties| ensures empties[i] in kept && kept[empties[i]] != [] {
      assert empties[i] in empties && CellFilled(m, xvar, empties[i]);
    }
    forall i | 0 <= i < |edges| ensures edges[i] in domain && domain[edges[i]] != [] {
      assert edges[i] in edges && EdgeTinted(m, evar, edges[i]);
    }
  }

  /** The tables that the variables range over are the ones of the specification. */
  lemma TablesMatch(rt: Root, empties: seq<Cell>, edges: seq<Edge>, kept: map<Cell, seq<Placed>>, domain: map<Edge, seq<int>>,
                    xvar: map<Slot, nat>, evar: map<Tint, nat>)
    requires WellKeyed(rt) && ListsEmpties(rt, empties) && ListsEdges(rt, edges)
    requires KeptTable(rt, kept) && DomainTable(rt, domain)
    requires forall s :: s in xvar <==> SlotListed(empties, kept, s)
    requires forall t :: t in evar <==> TintListed(edges, domain, t)
    ensures TableKeys(rt, xvar, evar)
  {
    forall s ensures s in xvar <==> Kept(rt, s) {
      assert IsEmpty(rt, s.cell) ==> ListsKept(rt, s.cell, kept[s.cell]);
      assert s == Slot(s.cell, s.placed);
    }
    forall t ensures t in evar <==> IsFreeEdge(rt, t.edge) && InDomain(rt, t.edge, t.colour) {
      assert IsFreeEdge(rt, t.edge) ==> ListsDomain(rt, t.edge, domain[t.edge]);
    }
  }

  lemma TablesListed(rt: Root, empties: seq<Cell>, edges: seq<Edge>, kept: map<Cell, seq<Placed>>, domain: map<Edge, seq<int>>)
    requires WellKeyed(rt) && ListsEmpties(rt, empties) && ListsEdges(rt, edges)
    requires KeptTable(rt, kept) && DomainTable(rt, domain)
    ensures Listed(empties, kept) && Listed(edges, domain)
  {
    forall c | c in empties ensures c in kept && NoDup(kept[c]) {
      assert ListsKept(rt, c, kept[c]);
    }
    forall e | e in edges ensures e in domain && NoDup(domain[e]) {
      assert IsFreeEdge(rt, e) && ListsDomain(rt, e, domain[e]);
    }
  }

  lemma SlotsReady(rt: Root, free: seq<int>, xvar: map<Slot, nat>, evar: map<Tint, nat>)
    requires WellKeyed(rt) && TableKeys(rt, xvar, evar) && ListsFree(rt, free)
    ensures SlotsKnown(rt, xvar) && forall s :: s in xvar ==> s.placed.id in free && SlotTinted(rt, evar, s)
  {
    forall s | s in xvar ensures s.placed.id in free && SlotTinted(rt, evar, s) {
      forall side | FreeSide(rt, s.cell, side) ensures ShownTint(rt, s, side) in evar {
        ShownInTable(rt, evar, s, side);
      }
    }
  }

  /**
   `encode`: refuses when the free pieces and the empty cells differ in number, otherwise builds a
   formula whose models are exactly the fillings of the empty cells.
   */
  method Encode(board: Grid, pieces: Pieces, size: nat, pairwiseMax: int, forbidInnerGrey: Option<bool>)
    returns (r: Outcome)
    requires Known(pieces, board)
    ensures r.Refused? <==> |pieces.Keys - Ids(board)| != |GridCells(size) - board.Keys|
    ensures r.Built? ==>
      && r.enc.forbid == (if forbidInnerGrey.Some? then forbidInnerGrey.value else GreyStructure(pieces, size))
      && Encodes(Root(size, pieces, board, r.enc.forbid), r.enc)
  {
    var greyOk := StructuralGreyCheck(pieces, size);
    var forbid := if forbidInnerGrey.Some? then forbidInnerGrey.value else greyOk;
    var rt := Root(size, pieces, board, forbid);
    var empties := EmptyCells(rt);
    var free := Sorted(FreeIds(rt));
    CountTables(rt, empties, free);
    if |free| != |empties| {
      return Refused(|empties|, |free|);
    }
    var enc := EncodeRoot(rt, empties, free, pairwiseMax);
    r := Built(enc);
  }

  lemma CountTables(rt: Root, empties: seq<Cell>, free: seq<int>)
    requires ListsEmpties(rt, empties) && NoDup(free) && forall p :: p in free <==> p in FreeIds(rt)
    ensures ListsFree(rt, free)
    ensures |empties| == |GridCells(rt.size) - rt.board.Keys| && |free| == |FreeIds(rt)|
  {
    ListCard(empties, GridCells(rt.size) - rt.board.Keys);
    var ids: set<int> := FreeIds(rt);
    assert forall p :: p in free <==> p in ids;
    ListCard(free, ids);
  }

  method RootTable(rt: Root, empties: seq<Cell>, free: seq<int>)
    returns (fixed: map<Cell, seq<Wanted>>, edges: seq<Edge>, domain: map<Edge, seq<int>>, kept: map<Cell, seq<Placed>>)
    requires WellKeyed(rt) && ListsEmpties(rt, empties) && ListsFree(rt, free)
    ensures forall c :: c in empties ==> c in fixed && OpenSides(rt, c, fixed[c])
    ensures ListsEdges(rt, edges) && DomainTable(rt, domain) && KeptTable(rt, kept)
  {
    fixed := FixedSides(rt, empties);
    var cand := Candidates(rt, empties, free, fixed);
    edges := FreeEdges(rt, empties);
    domain := Domains(rt, edges, cand);
    kept := Prune(rt, empties, fixed, cand, domain);
    SidesOpen(rt, empties, fixed);
  }

  /** Tables, then variables, then clauses. */
  method EncodeRoot(rt: Root, empties: seq<Cell>, free: seq<int>, pairwiseMax: int) returns (enc: Encoding)
    requires WellKeyed(rt) && ListsEmpties(rt, empties) && ListsFree(rt, free)
    ensures enc.forbid == rt.forbid && Encodes(rt, enc)
  {
    var fixed, edges, domain, kept := RootTable(rt, empties, free);
    TablesListed(rt, empties, edges, kept, domain);
    var cnf := new Cnf();
    var xvar, slots := PlacementVars(empties, kept, cnf);
    var evar, tints := ColourVars(edges, domain, cnf);
    BothNumbered(xvar, slots, evar, tints);
    TablesMatch(rt, empties, edges, kept, domain, xvar, evar);
    SlotsReady(rt, free, xvar, evar);
    ghost var base := cnf.nvars;
    var unsat;
    ghost var ks;
    unsat, ks := EmitClauses(rt, cnf, empties, free, edges, fixed, kept, domain, xvar, slots, evar, pairwiseMax, base);
    DeadEndShows(rt, empties, free, edges, kept, domain, xvar, evar);
    enc := Encoding(cnf.nvars, cnf.clauses, xvar, rt.forbid, unsat);
    EncodesAll(rt, xvar, evar, base, ks, enc);
  }

  lemma SidesOpen(rt: Root, empties: seq<Cell>, fixed: map<Cell, seq<Wanted>>)
    requires WellKeyed(rt) && ListsEmpties(rt, empties)
    requires forall c :: c in empties ==> c in fixed && fixed[c] == Sides(rt, c)
    ensures forall c :: c in empties ==> OpenSides(rt, c, fixed[c])
  {
    forall c, side | c in empties && 0 <= side < 4 ensures fixed[c][side] == Open <==> FreeSide(rt, c, side) {
      FixedOpen(rt, c, side);
    }
  }

  lemma {:induction false} ListCard<T>(list: seq<T>, s: set<T>)
    requires NoDup(list) && forall t :: t in list <==> t in s
    ensures |list| == |s|
    decreases |list|
  {
    if list == [] {
      assert s == {};
    } else {
      var last := list[|list| - 1];
      var init := list[..|list| - 1];
      forall t ensures t in init <==> t in s - {last} {
        assert t in list <==> t in init || t == last;
        assert last !in init;
      }
      ListCard(init, s - {last});
      assert last in s;
    }
  }

  /** A completion; when grey is forbidden between empty cells, one that shows none there. */
  ghost predicate Allowed(rt: Root, full: Grid) {
    && Solves(rt.size, rt.pieces, full) && ExtendsBoard(full, rt.board)
    && (rt.forbid ==> forall c, side :: FreeSide(rt, c, side) ==> Face(rt.pieces, full, c, side) != GREY)
  }

  lemma FillingAllowed(rt: Root, sol: Grid)
    requires Consistent(rt.size, rt.pieces, rt.board) && Wants(rt, sol)
    ensures Allowed(rt, rt.board + sol)
  {
    FillingCompletes(rt, sol);
    var full := rt.board + sol;
    if rt.forbid {
      forall c, side | FreeSide(rt, c, side) ensures Face(rt.pieces, full, c, side) != GREY {
        assert c in sol && full[c] == sol[c];
      }
    }
  }

  lemma AllowedWanted(rt: Root, full: Grid)
    requires Consistent(rt.size, rt.pieces, rt.board) && Allowed(rt, full)
    ensures Wants(rt, Rest(full, rt.board))
  {
    CompletionFills(rt, full);
    var sol := Rest(full, rt.board);
    if rt.forbid {
      forall c, side | FreeSide(rt, c, side) ensures Face(rt.pieces, sol, c, side) != GREY {
        assert c in sol && full[c] == sol[c];
      }
    }
  }

  /** With or without forbidding grey, the formula is satisfiable exactly when an allowed completion exists. */
  lemma SatisfiableExact(rt: Root, enc: Encoding)
    requires Consistent(rt.size, rt.pieces, rt.board) && Encodes(rt, enc)
    ensures Satisfiable(enc.clauses) <==> exists full :: Allowed(rt, full)
  {
    forall m: set<int> | Models(m, enc.clauses) ensures Allowed(rt, rt.board + Decode(enc.xvar, m)) {
      FillingAllowed(rt, Decode(enc.xvar, m));
    }
    forall full | Allowed(rt, full) ensures Satisfiable(enc.clauses) {
      AllowedWanted(rt, full);
      assert Describes(rt, enc, Rest(full, rt.board));
    }
  }

  /**
   The question of the tool, answered: on a board without contradiction, and with grey forbidden only
   when the grey structure allows it, the formula is satisfiable exactly when the board has a completion,
   and every model decodes to one.
   */
  lemma SatisfiableIffCompletable(rt: Root, enc: Encoding)
    requires Consistent(rt.size, rt.pieces, rt.board) && (rt.forbid ==> GreyStructure(rt.pieces, rt.size))
    requires Encodes(rt, enc)
    ensures Satisfiable(enc.clauses) <==> HasCompletion(rt.size, rt.pieces, rt.board)
    ensures forall m: set<int> :: Models(m, enc.clauses) ==>
      Solves(rt.size, rt.pieces, rt.board + Decode(enc.xvar, m)) && ExtendsBoard(rt.board + Decode(enc.xvar, m), rt.board)
  {
    forall m: set<int> | Models(m, enc.clauses)
      ensures Solves(rt.size, rt.pieces, rt.board + Decode(enc.xvar, m))
      ensures ExtendsBoard(rt.board + Decode(enc.xvar, m), rt.board)
    {
      FillingCompletes(rt, Decode(enc.xvar, m));
    }
    forall full: Grid | Solves(rt.size, rt.pieces, full) && ExtendsBoard(full, rt.board)
      ensures Satisfiable(enc.clauses)
    {
      CompletionWanted(rt, full);
      assert Describes(rt, enc, Rest(full, rt.board));
    }
  }
}
