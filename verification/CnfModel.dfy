/**
 Clause sets as `tools/root_to_cnf.py` builds them: the mutable `Cnf` object, the two
 at-most-one encodings, and what adding them means for the models of the formula.

 A literal is a non-zero integer; a model is the finite set of its true variables.
 */
module CnfModel {
  type Clause = seq<int>

  function Var(l: int): nat { if l < 0 then -l else l }

  predicate LitTrue(m: set<int>, l: int) { if l > 0 then l in m else -l !in m }

  predicate ClauseTrue(m: set<int>, c: Clause) { exists i :: 0 <= i < |c| && LitTrue(m, c[i]) }

  predicate Models(m: set<int>, cs: seq<Clause>) { forall i :: 0 <= i < |cs| ==> ClauseTrue(m, cs[i]) }

  /** No two positions of the list hold a true literal. */
  predicate AtMostOne(m: set<int>, lits: seq<int>) {
    forall i, j :: 0 <= i < j < |lits| ==> !(LitTrue(m, lits[i]) && LitTrue(m, lits[j]))
  }

  /** Every literal is non-zero and its variable has been allocated. */
  predicate Scoped(lits: seq<int>, n: nat) { forall i :: 0 <= i < |lits| ==> lits[i] != 0 && Var(lits[i]) <= n }

  predicate AllScoped(cs: seq<Clause>, n: nat) { forall i :: 0 <= i < |cs| ==> Scoped(cs[i], n) }

  /** The two models give the same value to every variable up to `n`. */
  predicate Agree(m: set<int>, m': set<int>, n: nat) { forall v :: 1 <= v <= n ==> (v in m <==> v in m') }

  lemma AgreeModels(m: set<int>, m': set<int>, cs: seq<Clause>, n: nat)
    requires AllScoped(cs, n) && Agree(m, m', n) && Models(m, cs)
    ensures Models(m', cs)
  {
    forall i | 0 <= i < |cs|
      ensures ClauseTrue(m', cs[i])
    {
      assert ClauseTrue(m, cs[i]) && Scoped(cs[i], n);
      var j :| 0 <= j < |cs[i]| && LitTrue(m, cs[i][j]);
      assert Var(cs[i][j]) <= n;
      assert LitTrue(m', cs[i][j]);
    }
  }

  lemma ModelsConcat(m: set<int>, a: seq<Clause>, b: seq<Clause>)
    ensures Models(m, a + b) <==> Models(m, a) && Models(m, b)
  {
    if Models(m, a + b) {
      forall i | 0 <= i < |a| ensures ClauseTrue(m, a[i]) { assert (a + b)[i] == a[i]; }
      forall i | 0 <= i < |b| ensures ClauseTrue(m, b[i]) { assert (a + b)[|a| + i] == b[i]; }
    }
  }

  // ------------------------------------------------------------------
  // The at-most-one encodings
  // ------------------------------------------------------------------

  /** The clauses of the inner pairwise loop for `i`, up to but excluding partner `j`. */
  function PairRow(lits: seq<int>, i: nat, j: nat): (cs: seq<Clause>)
    requires i < j <= |lits|
    ensures |cs| == j - i - 1
    ensures forall d :: 0 <= d < |cs| ==> cs[d] == [-lits[i], -lits[i + 1 + d]]
  {
    seq(j - i - 1, d requires 0 <= d < j - i - 1 => [-lits[i], -lits[i + 1 + d]])
  }

  function PairClauses(lits: seq<int>, i: nat): seq<Clause>
    requires i <= |lits|
  {
    if i == 0 then [] else PairClauses(lits, i - 1) + PairRow(lits, i - 1, |lits|)
  }

  /** The ladder clauses of the sequential encoding for positions below `i`; the auxiliary of position `p` is `n + 1 + p`. */
  function LadderClauses(lits: seq<int>, n: nat, i: nat): seq<Clause>
    requires 1 <= i <= |lits|
  {
    if i == 1 then []
    else LadderClauses(lits, n, i - 1) + [[-lits[i - 1], n + i], [-(n + i - 1), n + i], [-lits[i - 1], -(n + i - 1)]]
  }

  function SequentialClauses(lits: seq<int>, n: nat): seq<Clause>
    requires 2 <= |lits|
  {
    var k := |lits|;
    [[-lits[0], n + 1], [-lits[k - 1], -(n + k - 1)]] + LadderClauses(lits, n, k - 1)
  }

  predicate UsesLadder(lits: seq<int>, pairwiseMax: int) { |lits| > 1 && |lits| > pairwiseMax }

  /** What `amo` appends when `n` variables are already allocated. */
  function AmoClauses(lits: seq<int>, n: nat, pairwiseMax: int): seq<Clause> {
    if |lits| <= 1 then []
    else if |lits| <= pairwiseMax then PairClauses(lits, |lits|)
    else SequentialClauses(lits, n)
  }

  function AmoAux(lits: seq<int>, pairwiseMax: int): nat {
    if UsesLadder(lits, pairwiseMax) then |lits| - 1 else 0
  }

  // ---- pairwise form ----

  lemma {:induction false} PairClausesExact(m: set<int>, lits: seq<int>, i: nat)
    requires i <= |lits|
    requires forall p :: 0 <= p < |lits| ==> lits[p] != 0
    ensures Models(m, PairClauses(lits, i))
       <==> forall a, b :: 0 <= a < i && a < b < |lits| ==> !(LitTrue(m, lits[a]) && LitTrue(m, lits[b]))
  {
    if i > 0 {
      PairClausesExact(m, lits, i - 1);
      var row := PairRow(lits, i - 1, |lits|);
      ModelsConcat(m, PairClauses(lits, i - 1), row);
      assert forall d :: 0 <= d < |row| ==>
        (ClauseTrue(m, row[d]) <==> !(LitTrue(m, lits[i - 1]) && LitTrue(m, lits[i + d]))) by {
        forall d | 0 <= d < |row|
          ensures ClauseTrue(m, row[d]) <==> !(LitTrue(m, lits[i - 1]) && LitTrue(m, lits[i + d]))
        {
          PairTrue(m, lits[i - 1], lits[i + d]);
        }
      }
      if Models(m, row) {
        forall b | i - 1 < b < |lits| ensures !(LitTrue(m, lits[i - 1]) && LitTrue(m, lits[b])) {
          assert ClauseTrue(m, row[b - i]);
        }
      }
    }
  }

  lemma PairTrue(m: set<int>, a: int, b: int)
    requires a != 0 && b != 0
    ensures ClauseTrue(m, [-a, -b]) <==> !(LitTrue(m, a) && LitTrue(m, b))
  {
    var c := [-a, -b];
    assert LitTrue(m, c[0]) <==> !LitTrue(m, a);
    assert LitTrue(m, c[1]) <==> !LitTrue(m, b);
  }

  lemma ImplyTrue(m: set<int>, a: int, b: int)
    requires a != 0 && b != 0
    ensures ClauseTrue(m, [-a, b]) <==> (LitTrue(m, a) ==> LitTrue(m, b))
  {
    var c := [-a, b];
    assert LitTrue(m, c[0]) <==> !LitTrue(m, a);
    assert LitTrue(m, c[1]) <==> LitTrue(m, b);
  }

  // ---- sequential form ----

  /** Position `p` feeds its auxiliary, the previous auxiliary propagates, and a second hit is refused. */
  predicate Rung(m: set<int>, lits: seq<int>, n: nat, p: int)
    requires 0 <= p < |lits|
  {
    && (LitTrue(m, lits[p]) ==> n + 1 + p in m)
    && (n + p in m ==> n + 1 + p in m)
    && !(LitTrue(m, lits[p]) && n + p in m)
  }

  lemma {:induction false} LadderExact(m: set<int>, lits: seq<int>, n: nat, i: nat)
    requires 1 <= i <= |lits|
    requires forall p :: 0 <= p < |lits| ==> lits[p] != 0
    ensures Models(m, LadderClauses(lits, n, i))
       <==> forall p :: 1 <= p < i ==> Rung(m, lits, n, p)
  {
    if i > 1 {
      LadderExact(m, lits, n, i - 1);
      var step := [[-lits[i - 1], n + i], [-(n + i - 1), n + i], [-lits[i - 1], -(n + i - 1)]];
      ModelsConcat(m, LadderClauses(lits, n, i - 1), step);
      ImplyTrue(m, lits[i - 1], n + i);
      ImplyTrue(m, n + i - 1, n + i);
      PairTrue(m, lits[i - 1], n + i - 1);
      assert Models(m, step) <==> ClauseTrue(m, step[0]) && ClauseTrue(m, step[1]) && ClauseTrue(m, step[2]);
      assert Models(m, step) <==> Rung(m, lits, n, i - 1);
    }
  }

  lemma SequentialExact(m: set<int>, lits: seq<int>, n: nat)
    requires 2 <= |lits|
    requires forall p :: 0 <= p < |lits| ==> lits[p] != 0
    ensures Models(m, SequentialClauses(lits, n))
       <==> ((LitTrue(m, lits[0]) ==> n + 1 in m)
             && !(LitTrue(m, lits[|lits| - 1]) && n + |lits| - 1 in m)
             && Models(m, LadderClauses(lits, n, |lits| - 1)))
  {
    var k := |lits|;
    var ends := [[-lits[0], n + 1], [-lits[k - 1], -(n + k - 1)]];
    ModelsConcat(m, ends, LadderClauses(lits, n, k - 1));
    ImplyTrue(m, lits[0], n + 1);
    PairTrue(m, lits[k - 1], n + k - 1);
    assert Models(m, ends) <==> ClauseTrue(m, ends[0]) && ClauseTrue(m, ends[1]);
  }

  /** A true literal keeps every later auxiliary true. */
  lemma {:induction false} LadderReaches(m: set<int>, lits: seq<int>, n: nat, a: nat, b: nat)
    requires 2 <= |lits| && a <= b < |lits| - 1
    requires forall p :: 0 <= p < |lits| ==> lits[p] != 0
    requires Models(m, SequentialClauses(lits, n)) && LitTrue(m, lits[a])
    ensures n + 1 + b in m
    decreases b
  {
    SequentialExact(m, lits, n);
    LadderExact(m, lits, n, |lits| - 1);
    if b > 0 {
      assert Rung(m, lits, n, b);
    }
    if a < b {
      LadderReaches(m, lits, n, a, b - 1);
    }
  }

  /** Every model of what `amo` adds has at most one true literal in the list. */
  lemma AmoSound(m: set<int>, lits: seq<int>, n: nat, pairwiseMax: int)
    requires Scoped(lits, n)
    requires Models(m, AmoClauses(lits, n, pairwiseMax))
    ensures AtMostOne(m, lits)
  {
    if |lits| > 1 {
      if |lits| <= pairwiseMax {
        PairClausesExact(m, lits, |lits|);
      } else {
        SequentialExact(m, lits, n);
        LadderExact(m, lits, n, |lits| - 1);
        forall a, b | 0 <= a < b < |lits|
          ensures !(LitTrue(m, lits[a]) && LitTrue(m, lits[b]))
        {
          if b < |lits| - 1 {
            assert Rung(m, lits, n, b);
          }
          if LitTrue(m, lits[a]) {
            LadderReaches(m, lits, n, a, b - 1);
          }
        }
      }
    }
  }

  predicate Hit(m: set<int>, lits: seq<int>, p: int)
    requires p < |lits|
  {
    exists a :: 0 <= a <= p && LitTrue(m, lits[a])
  }

  /** `m` up to `n`, and the auxiliary of position `p` true exactly when some literal up to `p` is. */
  function LadderWitness(m: set<int>, lits: seq<int>, n: nat): set<int> {
    set v | 1 <= v <= n + |lits| && (if v <= n then v in m else Hit(m, lits, v - n - 1))
  }

  /** An assignment with at most one true literal extends to the auxiliaries. */
  lemma AmoComplete(m: set<int>, lits: seq<int>, n: nat, pairwiseMax: int)
    requires Scoped(lits, n)
    requires AtMostOne(m, lits)
    ensures Agree(m, LadderWitness(m, lits, n), n)
    ensures Models(LadderWitness(m, lits, n), AmoClauses(lits, n, pairwiseMax))
  {
    var w := LadderWitness(m, lits, n);
    assert forall p :: 0 <= p < |lits| ==> (LitTrue(w, lits[p]) <==> LitTrue(m, lits[p]));
    if |lits| > 1 {
      if |lits| <= pairwiseMax {
        PairClausesExact(w, lits, |lits|);
      } else {
        SequentialExact(w, lits, n);
        LadderExact(w, lits, n, |lits| - 1);
        assert forall p {:trigger Hit(m, lits, p)} :: 0 <= p < |lits| ==> (n + 1 + p in w <==> Hit(m, lits, p));
        assert LitTrue(m, lits[0]) ==> Hit(m, lits, 0);
        assert Hit(m, lits, |lits| - 2) ==> !LitTrue(m, lits[|lits| - 1]);
        forall p | 1 <= p < |lits| - 1 ensures Rung(w, lits, n, p) {
          assert n + p in w <==> Hit(m, lits, p - 1);
          assert n + 1 + p in w <==> Hit(m, lits, p);
        }
      }
    }
  }

  /** `amo` is exact: the assignments of the first `n` variables that extend to its clauses are those with at most one true literal. */
  lemma AmoExact(m: set<int>, lits: seq<int>, n: nat, pairwiseMax: int)
    requires Scoped(lits, n)
    ensures AtMostOne(m, lits)
       <==> exists m' :: Agree(m, m', n) && Models(m', AmoClauses(lits, n, pairwiseMax))
  {
    if AtMostOne(m, lits) {
      AmoComplete(m, lits, n, pairwiseMax);
    }
    if m' :| Agree(m, m', n) && Models(m', AmoClauses(lits, n, pairwiseMax)) {
      AmoSound(m', lits, n, pairwiseMax);
      assert forall p :: 0 <= p < |lits| ==> (LitTrue(m', lits[p]) <==> LitTrue(m, lits[p]));
    }
  }

  // ---- what is added, and how much ----

  lemma {:induction false} PairClausesScoped(lits: seq<int>, n: nat, i: nat)
    requires i <= |lits| && Scoped(lits, n)
    ensures AllScoped(PairClauses(lits, i), n)
    ensures 2 * |PairClauses(lits, i)| == i * (2 * |lits| - 1 - i)
  {
    if i > 0 {
      PairClausesScoped(lits, n, i - 1);
      assert i * (2 * |lits| - 1 - i) == (i - 1) * (2 * |lits| - i) + 2 * (|lits| - i) by {
        assert (i - 1) * (2 * |lits| - i) == i * (2 * |lits| - i) - (2 * |lits| - i);
        assert i * (2 * |lits| - 1 - i) == i * (2 * |lits| - i) - i;
      }
    }
  }

  lemma {:induction false} LadderScoped(lits: seq<int>, n: nat, i: nat)
    requires 1 <= i <= |lits| && Scoped(lits, n)
    ensures AllScoped(LadderClauses(lits, n, i), n + i)
    ensures |LadderClauses(lits, n, i)| == 3 * (i - 1)
  {
    if i > 1 {
      LadderScoped(lits, n, i - 1);
      var before := LadderClauses(lits, n, i - 1);
      var step := [[-lits[i - 1], n + i], [-(n + i - 1), n + i], [-lits[i - 1], -(n + i - 1)]];
      assert AllScoped(step, n + i) by {
        assert forall d :: 0 <= d < 3 ==> Scoped(step[d], n + i);
      }
      forall d | 0 <= d < |before| ensures Scoped(before[d], n + i) {
        assert Scoped(before[d], n + i - 1);
      }
    }
  }

  /** Only the auxiliaries are new, and the sizes are the documented ones: k(k-1)/2 clauses, or 3k-4 clauses with k-1 auxiliaries. */
  lemma AmoSize(lits: seq<int>, n: nat, pairwiseMax: int)
    requires Scoped(lits, n)
    ensures AllScoped(AmoClauses(lits, n, pairwiseMax), n + AmoAux(lits, pairwiseMax))
    ensures UsesLadder(lits, pairwiseMax) ==>
      AmoAux(lits, pairwiseMax) == |lits| - 1 && |AmoClauses(lits, n, pairwiseMax)| == 3 * |lits| - 4
    ensures !UsesLadder(lits, pairwiseMax) ==>
      AmoAux(lits, pairwiseMax) == 0 && 2 * |AmoClauses(lits, n, pairwiseMax)| == |lits| * (|lits| - 1)
  {
    var k := |lits|;
    if k > 1 {
      if k <= pairwiseMax {
        PairClausesScoped(lits, n, k);
      } else {
        LadderScoped(lits, n, k - 1);
        var ends := [[-lits[0], n + 1], [-lits[k - 1], -(n + k - 1)]];
        assert forall d :: 0 <= d < 2 ==> Scoped(ends[d], n + k - 1);
      }
    }
  }

  // ------------------------------------------------------------------
  // The formula under construction
  // ------------------------------------------------------------------

  /** The `Cnf` object: a variable counter, the clause list, and whether an empty clause was added. */
  class Cnf {
    var nvars: nat
    var clauses: seq<Clause>
    var empty: bool

    constructor ()
      ensures nvars == 0 && clauses == [] && !empty
    {
      nvars, clauses, empty := 0, [], false;
    }

    method NewVar() returns (v: nat)
      modifies this
      ensures v == nvars == old(nvars) + 1
      ensures clauses == old(clauses) && empty == old(empty)
    {
      nvars := nvars + 1;
      v := nvars;
    }

    method Add(clause: Clause)
      modifies this
      ensures clauses == old(clauses) + [clause] && nvars == old(nvars)
      ensures empty == (old(empty) || clause == [])
    {
      if clause == [] {
        empty := true;
      }
      clauses := clauses + [clause];
    }

    /** At most one of `lits` is true: pairwise up to `pairwiseMax` literals, sequential above. */
    method Amo(lits: seq<int>, pairwiseMax: int)
      modifies this
      ensures clauses == old(clauses) + AmoClauses(lits, old(nvars), pairwiseMax)
      ensures nvars == old(nvars) + AmoAux(lits, pairwiseMax)
      ensures empty == old(empty)
    {
      var k := |lits|;
      if k <= 1 {
        return;
      }
      if k <= pairwiseMax {
        AddPairs(lits);
      } else {
        AddLadder(lits);
      }
    }

    method AddPairs(lits: seq<int>)
      modifies this
      ensures clauses == old(clauses) + PairClauses(lits, |lits|)
      ensures nvars == old(nvars) && empty == old(empty)
    {
      var k := |lits|;
      ghost var start := clauses;
      for i := 0 to k
        invariant clauses == start + PairClauses(lits, i)
        invariant nvars == old(nvars) && empty == old(empty)
      {
        ghost var rows := PairClauses(lits, i);
        for j := i + 1 to k
          invariant clauses == start + (rows + PairRow(lits, i, j))
          invariant nvars == old(nvars) && empty == old(empty)
        {
          Add([-lits[i], -lits[j]]);
          assert rows + PairRow(lits, i, j + 1) == rows + PairRow(lits, i, j) + [[-lits[i], -lits[j]]];
        }
      }
    }

    /** The sequential encoding, with `|lits| - 1` fresh auxiliaries. */
    method AddLadder(lits: seq<int>)
      requires |lits| >= 2
      modifies this
      ensures clauses == old(clauses) + SequentialClauses(lits, old(nvars))
      ensures nvars == old(nvars) + |lits| - 1 && empty == old(empty)
    {
      var k := |lits|;
      ghost var n, start := nvars, clauses;
      var s: seq<int> := [];
      for p := 0 to k - 1
        invariant clauses == start && empty == old(empty)
        invariant nvars == n + p && |s| == p
        invariant forall q :: 0 <= q < p ==> s[q] == n + 1 + q
      {
        var v := NewVar();
        s := s + [v];
      }
      Add([-lits[0], s[0]]);
      Add([-lits[k - 1], -s[k - 2]]);
      ghost var ends := [[-lits[0], n + 1], [-lits[k - 1], -(n + k - 1)]];
      assert clauses == start + (ends + LadderClauses(lits, n, 1));
      for i := 1 to k - 1
        invariant clauses == start + (ends + LadderClauses(lits, n, i))
        invariant nvars == n + k - 1 && empty == old(empty)
      {
        ghost var rungs := LadderClauses(lits, n, i);
        ghost var step := [[-lits[i], n + i + 1], [-(n + i), n + i + 1], [-lits[i], -(n + i)]];
        Add([-lits[i], s[i]]);
        Add([-s[i - 1], s[i]]);
        Add([-lits[i], -s[i - 1]]);
        assert clauses == start + (ends + rungs) + step;
        assert start + (ends + (rungs + step)) == start + (ends + rungs) + step;
      }
    }
  }

  // ------------------------------------------------------------------
  // What a formula states about the variables its builder chose
  // ------------------------------------------------------------------

  datatype Constraint =
    | OneOf(lits: seq<int>)      // at least one literal is true
    | NoTwoOf(lits: seq<int>)    // at most one position is true

  predicate Holds(m: set<int>, k: Constraint) {
    match k
    case OneOf(lits) => ClauseTrue(m, lits)
    case NoTwoOf(lits) => AtMostOne(m, lits)
  }

  predicate Meaning(m: set<int>, ks: seq<Constraint>) { forall i :: 0 <= i < |ks| ==> Holds(m, ks[i]) }

  predicate Over(ks: seq<Constraint>, base: nat) { forall i :: 0 <= i < |ks| ==> Scoped(ks[i].lits, base) }

  /** `m` satisfies the constraints over the first `base` variables, so it extends to a model of the clauses. */
  ghost predicate Extends(m: set<int>, cs: seq<Clause>, base: nat) {
    exists m' :: Agree(m, m', base) && Models(m', cs)
  }

  /**
   The clauses, over `n` variables, state exactly the constraints `ks` on the first `base` variables:
   an assignment of those extends to a model if and only if it meets `ks`.
   */
  ghost predicate States(cs: seq<Clause>, n: nat, base: nat, ks: seq<Constraint>) {
    && base <= n && AllScoped(cs, n) && Over(ks, base)
    && forall m: set<int> :: Meaning(m, ks) <==> Extends(m, cs, base)
  }

  lemma MeaningSnoc(m: set<int>, ks: seq<Constraint>, k: Constraint)
    ensures Meaning(m, ks + [k]) <==> Meaning(m, ks) && Holds(m, k)
  {
    if Meaning(m, ks + [k]) {
      assert (ks + [k])[|ks|] == k;
      forall i | 0 <= i < |ks| ensures Holds(m, ks[i]) { assert (ks + [k])[i] == ks[i]; }
    }
  }

  lemma HoldsAgree(m: set<int>, m': set<int>, k: Constraint, base: nat)
    requires Scoped(k.lits, base) && Agree(m, m', base)
    ensures Holds(m, k) <==> Holds(m', k)
  {
    assert forall p :: 0 <= p < |k.lits| ==> (LitTrue(m, k.lits[p]) <==> LitTrue(m', k.lits[p]));
  }

  lemma StatesNothing(n: nat)
    ensures States([], n, n, [])
  {
    forall m: set<int> ensures Meaning(m, []) <==> Extends(m, [], n) {
      assert Agree(m, m, n) && Models(m, []);
    }
  }

  /** A clause over the base variables adds exactly its own disjunction. */
  lemma StatesAdd(cs: seq<Clause>, n: nat, base: nat, ks: seq<Constraint>, c: Clause)
    requires States(cs, n, base, ks) && Scoped(c, base)
    ensures States(cs + [c], n, base, ks + [OneOf(c)])
  {
    forall m: set<int> ensures Meaning(m, ks + [OneOf(c)]) <==> Extends(m, cs + [c], base) {
      MeaningSnoc(m, ks, OneOf(c));
      if Meaning(m, ks) && ClauseTrue(m, c) {
        var m' :| Agree(m, m', base) && Models(m', cs);
        HoldsAgree(m, m', OneOf(c), base);
        ModelsConcat(m', cs, [c]);
      }
      if Extends(m, cs + [c], base) {
        var m' :| Agree(m, m', base) && Models(m', cs + [c]);
        ModelsConcat(m', cs, [c]);
        assert ClauseTrue(m', [c][0]);
        HoldsAgree(m, m', OneOf(c), base);
      }
    }
  }

  /** The clauses of `amo` over the base variables add exactly the at-most-one constraint. */
  lemma StatesAmo(cs: seq<Clause>, n: nat, base: nat, ks: seq<Constraint>, lits: seq<int>, pairwiseMax: int)
    requires States(cs, n, base, ks) && Scoped(lits, base)
    ensures States(cs + AmoClauses(lits, n, pairwiseMax), n + AmoAux(lits, pairwiseMax), base, ks + [NoTwoOf(lits)])
  {
    var added := AmoClauses(lits, n, pairwiseMax);
    AmoSize(lits, n, pairwiseMax);
    forall i | 0 <= i < |cs| ensures Scoped(cs[i], n + AmoAux(lits, pairwiseMax)) {
      assert Scoped(cs[i], n);
    }
    forall m: set<int> ensures Meaning(m, ks + [NoTwoOf(lits)]) <==> Extends(m, cs + added, base) {
      MeaningSnoc(m, ks, NoTwoOf(lits));
      if Meaning(m, ks) && AtMostOne(m, lits) {
        var m' :| Agree(m, m', base) && Models(m', cs);
        HoldsAgree(m, m', NoTwoOf(lits), base);
        AmoComplete(m', lits, n, pairwiseMax);
        var w := LadderWitness(m', lits, n);
        AgreeModels(m', w, cs, n);
        ModelsConcat(w, cs, added);
        assert Agree(m, w, base);
      }
      if Extends(m, cs + added, base) {
        var m' :| Agree(m, m', base) && Models(m', cs + added);
        ModelsConcat(m', cs, added);
        AmoSound(m', lits, n, pairwiseMax);
        HoldsAgree(m, m', NoTwoOf(lits), base);
      }
    }
  }
}
