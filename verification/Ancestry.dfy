/** Following parent links. Shared by the workflow walk, which climbs them, and the
    transaction tree, which descends them. */
module Ancestry {
  import opened Basics
  import opened Transactions

  /** Each key's parent; whatever is not a key is a top. */
  type Parents = map<Hash, Hash>

  /** The n-th ancestor. */
  function Up(p: Parents, h: Hash, n: nat): Option<Hash>
    decreases n
  {
    if n == 0 then Some(h) else if h in p then Up(p, p[h], n - 1) else None
  }

  ghost predicate TopAt(p: Parents, h: Hash, n: nat) {
    Up(p, h, n).Some? && Up(p, h, n).value !in p
  }

  /** Climbing from `h` ends. */
  ghost predicate Grounded(p: Parents, h: Hash) {
    exists n: nat :: TopAt(p, h, n)
  }

  ghost predicate Acyclic(p: Parents) {
    forall h: Hash, n: nat :: n > 0 ==> Up(p, h, n) != Some(h)
  }

  lemma {:induction false} UpAdds(p: Parents, h: Hash, m: nat, n: nat)
    requires Up(p, h, m).Some?
    ensures Up(p, h, m + n) == Up(p, Up(p, h, m).value, n)
    decreases m
  {
    if m > 0 {
      UpAdds(p, p[h], m - 1, n);
    }
  }

  lemma {:induction false} TopUnique(p: Parents, h: Hash, m: nat, n: nat)
    requires TopAt(p, h, m) && TopAt(p, h, n)
    ensures m == n
    decreases m
  {
    if m > 0 && n > 0 {
      TopUnique(p, p[h], m - 1, n - 1);
    }
  }

  /** How far it is to the top. */
  ghost function Height(p: Parents, h: Hash): nat
    requires Grounded(p, h)
    ensures TopAt(p, h, Height(p, h))
  {
    var n: nat :| TopAt(p, h, n);
    n
  }

  ghost function Top(p: Parents, h: Hash): Hash
    requires Grounded(p, h)
  {
    Up(p, h, Height(p, h)).value
  }

  lemma HeightIs(p: Parents, h: Hash, n: nat)
    requires TopAt(p, h, n)
    ensures Grounded(p, h) && Height(p, h) == n && Top(p, h) == Up(p, h, n).value
  {
    TopUnique(p, h, n, Height(p, h));
  }

  lemma GroundedTop(p: Parents, h: Hash)
    requires h !in p
    ensures Grounded(p, h) && Height(p, h) == 0 && Top(p, h) == h
  {
    assert TopAt(p, h, 0);
    HeightIs(p, h, 0);
  }

  /** One step up is one step nearer to the same top. */
  lemma GroundedStep(p: Parents, h: Hash)
    requires h in p
    ensures Grounded(p, h) <==> Grounded(p, p[h])
    ensures Grounded(p, h) ==> Height(p, h) == 1 + Height(p, p[h]) && Top(p, h) == Top(p, p[h])
  {
    if Grounded(p, h) {
      var n := Height(p, h);
      assert n > 0 && TopAt(p, p[h], n - 1);
      HeightIs(p, p[h], n - 1);
    }
    if Grounded(p, p[h]) {
      var n := Height(p, p[h]);
      assert TopAt(p, h, n + 1);
      HeightIs(p, h, n + 1);
    }
  }

  /** The climb goes on for ever exactly when every step finds another parent. */
  lemma UngroundedIff(p: Parents, h: Hash)
    ensures !Grounded(p, h) <==> forall n: nat :: GoesOn(p, h, n)
  {
    if !Grounded(p, h) {
      forall n: nat ensures GoesOn(p, h, n) {
        Climbs(p, h, n);
      }
    } else {
      var n: nat :| TopAt(p, h, n);
      assert !GoesOn(p, h, n);
    }
  }

  ghost predicate GoesOn(p: Parents, h: Hash, n: nat) {
    Up(p, h, n).Some? && Up(p, h, n).value in p
  }

  lemma {:induction false} Climbs(p: Parents, h: Hash, n: nat)
    requires !Grounded(p, h)
    ensures GoesOn(p, h, n)
    decreases n
  {
    if h !in p {
      GroundedTop(p, h);
    } else if n > 0 {
      GroundedStep(p, h);
      Climbs(p, p[h], n - 1);
    }
  }

  // ---------------------------------------------------------------- cycles

  ghost predicate Reaches(p: Parents, v: Hash, h: Hash) {
    exists n: nat :: n > 0 && Up(p, v, n) == Some(h)
  }

  /** A climb that has left `seen` behind without meeting it again comes to an end. */
  lemma {:induction false} ClimbEnds(p: Parents, h: Hash, seen: set<Hash>)
    requires Acyclic(p) && seen <= p.Keys
    requires forall v :: v in seen ==> Reaches(p, v, h)
    ensures Grounded(p, h)
    decreases |p.Keys - seen|
  {
    if h !in p {
      GroundedTop(p, h);
    } else {
      assert h !in seen;
      var seen' := seen + {h};
      forall v | v in seen' ensures Reaches(p, v, p[h]) {
        assert Up(p, h, 1) == Up(p, p[h], 0);
        if v != h {
          var n: nat :| n > 0 && Up(p, v, n) == Some(h);
          UpAdds(p, v, n, 1);
        }
      }
      assert p.Keys - seen' < p.Keys - seen;
      StrictSubsetSize(p.Keys - seen', p.Keys - seen);
      ClimbEnds(p, p[h], seen');
      GroundedStep(p, h);
    }
  }

  lemma StrictSubsetSize<T>(a: set<T>, b: set<T>)
    requires a < b
    ensures |a| < |b|
  {
    var x :| x in b && x !in a;
    SubsetSize(a, b - {x});
  }

  lemma {:induction false} HeightBelow(p: Parents, h: Hash, n: nat)
    requires Grounded(p, h) && Up(p, h, n).Some?
    ensures Grounded(p, Up(p, h, n).value) && Height(p, h) == n + Height(p, Up(p, h, n).value)
    decreases n
  {
    if n > 0 {
      GroundedStep(p, h);
      HeightBelow(p, p[h], n - 1);
    }
  }

  /** Links without a cycle are exactly those where every climb ends. */
  lemma AcyclicIffGrounded(p: Parents)
    ensures Acyclic(p) <==> forall h: Hash :: Grounded(p, h)
  {
    if Acyclic(p) {
      forall h: Hash ensures Grounded(p, h) {
        ClimbEnds(p, h, {});
      }
    }
    if forall h: Hash :: Grounded(p, h) {
      forall h: Hash, n: nat | n > 0 ensures Up(p, h, n) != Some(h) {
        if Up(p, h, n) == Some(h) {
          HeightBelow(p, h, n);
        }
      }
    }
  }

  // ---------------------------------------------------------------- how high

  /** The links a climb from `h` goes through. */
  ghost function Path(p: Parents, h: Hash): set<Hash>
    requires Grounded(p, h)
    decreases Height(p, h)
  {
    if h in p then
      GroundedStep(p, h);
      {h} + Path(p, p[h])
    else {}
  }

  lemma {:induction false} PathBelow(p: Parents, h: Hash)
    requires Grounded(p, h)
    ensures Path(p, h) <= p.Keys && |Path(p, h)| == Height(p, h)
    ensures forall g :: g in Path(p, h) ==> Grounded(p, g) && Height(p, g) <= Height(p, h)
    decreases Height(p, h)
  {
    if h in p {
      GroundedStep(p, h);
      PathBelow(p, p[h]);
      assert h !in Path(p, p[h]);
    } else {
      GroundedTop(p, h);
    }
  }

  /** No climb is longer than the number of links. */
  lemma HeightBound(p: Parents, h: Hash)
    requires Grounded(p, h)
    ensures Height(p, h) <= |p|
  {
    PathBelow(p, h);
    SubsetSize(Path(p, h), p.Keys);
  }
}
