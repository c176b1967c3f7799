/**
 Turning pieces: `rotate`, `unrotate`, `canonical` and `has_rotational_symmetry` of `tools/gen_clone.py`,
 and the duplicate check of `tools/validate_pieces.py` that rests on the canonical form.
 */
module Rotations {
  import opened Puzzle

  /** The base piece whose rotation by `r` shows `oriented`. */
  function Unrotate(oriented: Quad, r: int): Quad {
    [oriented[r % 4], oriented[(1 + r) % 4], oriented[(2 + r) % 4], oriented[(3 + r) % 4]]
  }

  /** One quarter turn: top <- left, right <- top, bottom <- right, left <- bottom. */
  function Turn(q: Quad): Quad { [q[3], q[0], q[1], q[2]] }

  function Turns(q: Quad, k: nat): Quad { if k == 0 then q else Turn(Turns(q, k - 1)) }

  lemma FewTurns(q: Quad)
    ensures Turns(q, 0) == q && Turns(q, 1) == Turn(q)
    ensures Turns(q, 2) == Turn(Turn(q)) && Turns(q, 3) == Turn(Turn(Turn(q)))
  {
    var two := Turns(q, 2);
    assert two == Turn(Turns(q, 1)) && Turns(q, 3) == Turn(two);
  }

  lemma FewFaces(q: Quad)
    ensures Faces(q, 0) == q && Faces(q, 1) == [q[3], q[0], q[1], q[2]]
    ensures Faces(q, 2) == [q[2], q[3], q[0], q[1]] && Faces(q, 3) == [q[1], q[2], q[3], q[0]]
  {
  }

  /** Rotating by `r` is `r mod 4` quarter turns. */
  lemma FacesAreTurns(q: Quad, r: int)
    ensures Faces(q, r) == Turns(q, r % 4)
  {
    RotateMod(q, r);
    FewTurnsFaces(q, r % 4);
  }

  lemma FewTurnsFaces(q: Quad, k: nat)
    requires k < 4
    ensures Faces(q, k) == Turns(q, k)
  {
    FewFaces(q);
    FewTurns(q);
    if k == 0 {
    } else if k == 1 {
    } else if k == 2 {
    } else {
      assert k == 3;
    }
  }

  lemma {:induction false} TurnsAdd(q: Quad, a: nat, b: nat)
    ensures Turns(Turns(q, a), b) == Turns(q, a + b)
    decreases b
  {
    if b > 0 {
      TurnsAdd(q, a, b - 1);
    }
  }

  lemma FullTurn(q: Quad)
    ensures Turns(q, 4) == q
  {
    var q1, q2, q3 := Turn(q), Turn(Turn(q)), Turn(Turn(Turn(q)));
    assert Turns(q, 1) == q1 && Turns(q, 2) == q2 && Turns(q, 3) == q3;
    assert Turn(q3) == q;
  }

  lemma {:induction false} TurnsMod(q: Quad, k: nat)
    ensures Turns(q, k) == Turns(q, k % 4)
    decreases k
  {
    if k >= 4 {
      TurnsAdd(q, 4, k - 4);
      FullTurn(q);
      TurnsMod(q, k - 4);
      assert (k - 4) % 4 == k % 4;
    }
  }

  lemma ModAdd(r: int, s: int, a: nat, b: nat)
    requires a == r % 4 && b == s % 4
    ensures (a + b) % 4 == (r + s) % 4
  {
  }

  lemma TurnsModAdd(q: Quad, a: nat, b: nat)
    ensures Turns(Turns(q, a), b) == Turns(q, (a + b) % 4)
  {
    TurnsAdd(q, a, b);
    TurnsMod(q, a + b);
  }

  /** Turns add up. */
  lemma RotateTwice(q: Quad, r: int, s: int)
    ensures Faces(Faces(q, r), s) == Faces(q, r + s)
  {
    FacesAreTurns(q, r);
    FacesAreTurns(Turns(q, r % 4), s);
    FacesAreTurns(q, r + s);
    TurnsModAdd(q, r % 4, s % 4);
    ModAdd(r, s, r % 4, s % 4);
  }

  lemma RotateMod(q: Quad, r: int)
    ensures Faces(q, r) == Faces(q, r % 4) && Faces(q, 0) == q
  {
  }

  lemma UnrotateIsTurningBack(q: Quad, r: int)
    ensures Unrotate(q, r) == Faces(q, -r)
  {
    var back := Faces(q, -r);
    assert back[0] == q[r % 4] && back[1] == q[(1 + r) % 4] && back[2] == q[(2 + r) % 4] && back[3] == q[(3 + r) % 4];
  }

  /** Cutting a piece out at rotation `r` and turning it back by `r` shows the same faces, and conversely. */
  lemma RotateUnrotate(q: Quad, r: int)
    ensures Faces(Unrotate(q, r), r) == q && Unrotate(Faces(q, r), r) == q
  {
    UnrotateIsTurningBack(q, r);
    UnrotateIsTurningBack(Faces(q, r), r);
    RotateTwice(q, -r, r);
    RotateTwice(q, r, -r);
    RotateMod(q, 0);
  }

  predicate RotationOf(a: Quad, b: Quad) { exists r :: 0 <= r < 4 && a == Faces(b, r) }

  /** Lexicographic order on face quadruples. */
  predicate LexLe(a: Quad, b: Quad) {
    a[0] < b[0] || (a[0] == b[0] && (a[1] < b[1] || (a[1] == b[1] && (a[2] < b[2] || (a[2] == b[2] && a[3] <= b[3])))))
  }

  function Lesser(a: Quad, b: Quad): Quad { if LexLe(a, b) then a else b }

  lemma LexOrder(a: Quad, b: Quad)
    ensures LexLe(a, b) || LexLe(b, a)
    ensures LexLe(a, b) && LexLe(b, a) ==> a == b
  {
  }

  lemma LesserLeast(a: Quad, b: Quad)
    ensures Lesser(a, b) == a || Lesser(a, b) == b
    ensures LexLe(Lesser(a, b), a) && LexLe(Lesser(a, b), b)
    ensures forall c: Quad :: LexLe(c, a) && LexLe(c, b) ==> LexLe(c, Lesser(a, b))
    ensures forall c: Quad :: LexLe(a, c) || LexLe(b, c) ==> LexLe(Lesser(a, b), c)
  {
  }

  /** The least of the rotations 0 .. k. */
  function LeastRotation(q: Quad, k: nat): Quad {
    if k == 0 then Faces(q, 0) else Lesser(LeastRotation(q, k - 1), Faces(q, k))
  }

  function Canonical(q: Quad): Quad { LeastRotation(q, 3) }

  lemma {:induction false} LeastIsRotation(q: Quad, k: nat)
    requires k < 4
    ensures RotationOf(LeastRotation(q, k), q)
  {
    if k > 0 {
      LeastIsRotation(q, k - 1);
      LesserLeast(LeastRotation(q, k - 1), Faces(q, k));
    }
  }

  lemma {:induction false} LeastBelow(q: Quad, k: nat, r: nat)
    requires r <= k < 4
    ensures LexLe(LeastRotation(q, k), Faces(q, r))
  {
    if k > 0 {
      LesserLeast(LeastRotation(q, k - 1), Faces(q, k));
      if r < k {
        LeastBelow(q, k - 1, r);
      }
    } else {
      LexOrder(Faces(q, 0), Faces(q, 0));
    }
  }

  lemma CanonicalLeast(q: Quad)
    ensures RotationOf(Canonical(q), q)
    ensures forall r :: 0 <= r < 4 ==> LexLe(Canonical(q), Faces(q, r))
  {
    LeastIsRotation(q, 3);
    forall r | 0 <= r < 4 ensures LexLe(Canonical(q), Faces(q, r)) {
      LeastBelow(q, 3, r);
    }
  }

  lemma RotationBack(a: Quad, b: Quad)
    requires RotationOf(a, b)
    ensures RotationOf(b, a)
  {
    var r :| 0 <= r < 4 && a == Faces(b, r);
    Backwards(b, r);
  }

  lemma Backwards(b: Quad, r: int)
    requires 0 <= r < 4
    ensures b == Faces(Faces(b, r), (4 - r) % 4) && 0 <= (4 - r) % 4 < 4
  {
    var back := (4 - r) % 4;
    RotateTwice(b, r, back);
    assert r + back == 0 || r + back == 4;
    assert Faces(b, 4) == b;
  }

  lemma RotationChain(a: Quad, b: Quad, c: Quad)
    requires RotationOf(a, b) && RotationOf(b, c)
    ensures RotationOf(a, c)
  {
    var r :| 0 <= r < 4 && a == Faces(b, r);
    var s :| 0 <= s < 4 && b == Faces(c, s);
    Onwards(c, s, r);
  }

  lemma Onwards(c: Quad, s: int, r: int)
    ensures Faces(Faces(c, s), r) == Faces(c, (s + r) % 4) && 0 <= (s + r) % 4 < 4
  {
    RotateTwice(c, s, r);
    RotateMod(c, s + r);
  }

  lemma CanonicalBelow(a: Quad, b: Quad)
    requires RotationOf(a, b)
    ensures LexLe(Canonical(a), Canonical(b))
  {
    CanonicalLeast(b);
    RotationBack(a, b);
    RotationChain(Canonical(b), b, a);
    CanonicalLeast(a);
    var r :| 0 <= r < 4 && Canonical(b) == Faces(a, r);
  }

  /** Two pieces have the same canonical form exactly when one is a rotation of the other. */
  lemma CanonicalExact(a: Quad, b: Quad)
    ensures Canonical(a) == Canonical(b) <==> RotationOf(a, b)
  {
    if RotationOf(a, b) {
      RotationBack(a, b);
      CanonicalBelow(a, b);
      CanonicalBelow(b, a);
      LexOrder(Canonical(a), Canonical(b));
    }
    if Canonical(a) == Canonical(b) {
      CanonicalLeast(a);
      CanonicalLeast(b);
      RotationBack(Canonical(a), a);
      RotationChain(a, Canonical(a), b);
    }
  }

  function RotationSet(q: Quad): set<Quad> { {Faces(q, 0), Faces(q, 1), Faces(q, 2), Faces(q, 3)} }

  /** Two different rotations coincide. */
  predicate HasRotationalSymmetry(q: Quad) { |RotationSet(q)| < 4 }

  /** A piece is symmetric exactly when half a turn shows the same faces. */
  lemma SymmetryExact(q: Quad)
    ensures HasRotationalSymmetry(q) <==> q[0] == q[2] && q[1] == q[3]
  {
    var s01 := {Faces(q, 0), Faces(q, 1)};
    var s012 := s01 + {Faces(q, 2)};
    assert RotationSet(q) == s012 + {Faces(q, 3)};
    if q[0] == q[2] && q[1] == q[3] {
      assert Faces(q, 0) == Faces(q, 2) && Faces(q, 1) == Faces(q, 3);
      assert RotationSet(q) == s01;
    } else {
      assert q[0] != q[2] || q[1] != q[3];
      assert Faces(q, 0) == q && Faces(q, 1) == [q[3], q[0], q[1], q[2]];
      assert Faces(q, 2) == [q[2], q[3], q[0], q[1]] && Faces(q, 3) == [q[1], q[2], q[3], q[0]];
      DistinctTurns(q);
      assert |s01| == 2 && |s012| == 3;
    }
  }

  lemma DistinctTurns(q: Quad)
    requires q[0] != q[2] || q[1] != q[3]
    ensures forall r, s :: 0 <= r < s < 4 ==> Faces(q, r) != Faces(q, s)
  {
    forall r, s | 0 <= r < s < 4 ensures Faces(q, r) != Faces(q, s) {
      var a, b := Faces(q, r), Faces(q, s);
      if a[0] == b[0] && a[1] == b[1] && a[2] == b[2] && a[3] == b[3] {
        assert false;
      }
    }
  }

  lemma CanonicalTurned(q: Quad, r: int)
    ensures Canonical(Faces(q, r)) == Canonical(q)
  {
    RotateMod(q, r);
    assert RotationOf(Faces(q, r % 4), q);
    CanonicalExact(Faces(q, r), q);
  }

  /** How two pieces happen to lie makes no difference to whether they are the same piece. */
  lemma TurnedAlike(a: Quad, b: Quad, r: int, s: int)
    ensures RotationOf(Faces(a, r), Faces(b, s)) <==> RotationOf(a, b)
  {
    CanonicalTurned(a, r);
    CanonicalTurned(b, s);
    CanonicalExact(Faces(a, r), Faces(b, s));
    CanonicalExact(a, b);
  }

  /** Nor to whether a piece is symmetric. */
  lemma TurnedSymmetric(q: Quad, r: int)
    ensures HasRotationalSymmetry(Faces(q, r)) <==> HasRotationalSymmetry(q)
  {
    SymmetryExact(q);
    SymmetryExact(Faces(q, r));
  }

  // ------------------------------------------------------------------
  // Duplicate check
  // ------------------------------------------------------------------

  predicate NoTwoAlike(quads: seq<Quad>, n: nat)
    requires n <= |quads|
  {
    forall i, j :: 0 <= i < j < n ==> !RotationOf(quads[i], quads[j])
  }

  /** Every seen canonical form leads to a piece that has it. */
  ghost predicate Seen(quads: seq<Quad>, canonical: map<Quad, nat>, n: nat)
    requires n <= |quads|
  {
    && (forall c :: c in canonical ==> canonical[c] < n && Canonical(quads[canonical[c]]) == c)
    && forall i :: 0 <= i < n ==> Canonical(quads[i]) in canonical
  }

  /** An earlier piece is a rotation of piece `n`. */
  predicate HasTwin(quads: seq<Quad>, n: nat)
    requires n < |quads|
  {
    exists i :: 0 <= i < n && RotationOf(quads[i], quads[n])
  }

  lemma AlikeSeen(quads: seq<Quad>, canonical: map<Quad, nat>, n: nat)
    requires n < |quads| && Seen(quads, canonical, n)
    ensures Canonical(quads[n]) in canonical <==> HasTwin(quads, n)
  {
    forall i | 0 <= i < n ensures RotationOf(quads[i], quads[n]) <==> Canonical(quads[i]) == Canonical(quads[n]) {
      CanonicalExact(quads[i], quads[n]);
    }
    if Canonical(quads[n]) in canonical {
      assert RotationOf(quads[canonical[Canonical(quads[n])]], quads[n]);
    }
  }

  lemma NoTwins(quads: seq<Quad>)
    ensures NoTwoAlike(quads, |quads|) <==> forall n :: 0 <= n < |quads| ==> !HasTwin(quads, n)
  {
    forall i, j | 0 <= i < j < |quads| && RotationOf(quads[i], quads[j]) ensures HasTwin(quads, j) {}
  }

  lemma SeenStep(quads: seq<Quad>, canonical: map<Quad, nat>, n: nat)
    requires n < |quads| && Seen(quads, canonical, n)
    ensures Seen(quads, if Canonical(quads[n]) in canonical then canonical else canonical[Canonical(quads[n]) := n], n + 1)
  {
  }

  /** The pieces marked among the first `n` are those with a twin before them. */
  ghost predicate Marked(quads: seq<Quad>, duplicates: seq<nat>, n: nat)
    requires n <= |quads|
  {
    && (forall d :: d in duplicates ==> d < n)
    && forall d :: 0 <= d < n ==> (d in duplicates <==> HasTwin(quads, d))
  }

  lemma MarkedStep(quads: seq<Quad>, duplicates: seq<nat>, n: nat)
    requires n < |quads| && Marked(quads, duplicates, n)
    ensures Marked(quads, if HasTwin(quads, n) then duplicates + [n] else duplicates, n + 1)
  {
  }

  /** The indices of the pieces whose canonical form was already seen: exactly those with a twin before them. */
  method CheckDuplicatePieces(quads: seq<Quad>) returns (duplicates: seq<nat>)
    ensures duplicates == [] <==> NoTwoAlike(quads, |quads|)
    ensures forall d :: 0 <= d < |quads| ==> (d in duplicates <==> HasTwin(quads, d))
  {
    duplicates := [];
    var canonical: map<Quad, nat> := map[];
    for n := 0 to |quads|
      invariant Seen(quads, canonical, n) && Marked(quads, duplicates, n)
    {
      AlikeSeen(quads, canonical, n);
      SeenStep(quads, canonical, n);
      MarkedStep(quads, duplicates, n);
      if Canonical(quads[n]) in canonical {
        duplicates := duplicates + [n];
      } else {
        canonical := canonical[Canonical(quads[n]) := n];
      }
    }
    NoTwins(quads);
    assert duplicates != [] ==> duplicates[0] in duplicates;
  }
}
