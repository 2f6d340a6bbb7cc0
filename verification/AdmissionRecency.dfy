/** What a bounded list of recent keys still remembers, in terms of the whole history
    of its use. */
module AdmissionRecency {
  import opened Basics
  import opened Transactions
  import opened AdmissionModel
  import opened AdmissionOrder

  /** The list after the keys `hs` were put in turn. */
  function Recall(hs: seq<Hash>, capacity: nat): seq<Hash> {
    if hs == [] then [] else Touch(Recall(DropLast(hs), capacity), capacity, Last(hs))
  }

  /** All keys ever put, by their last use, oldest first. */
  function Uses(hs: seq<Hash>): seq<Hash> {
    if hs == [] then [] else Without(Uses(DropLast(hs)), Last(hs)) + [Last(hs)]
  }

  function Youngest(u: seq<Hash>, n: nat): seq<Hash> {
    if |u| <= n then u else u[|u| - n..]
  }

  ghost predicate Distinct(u: seq<Hash>) {
    forall i, j :: 0 <= i < j < |u| ==> u[i] != u[j]
  }

  lemma {:induction false} WithoutAbsent(u: seq<Hash>, h: Hash)
    requires h !in u
    ensures Without(u, h) == u
  {
    if u != [] {
      WithoutAbsent(u[1..], h);
    }
  }

  lemma {:induction false} WithoutAt(u: seq<Hash>, p: nat)
    requires Distinct(u) && p < |u|
    ensures Without(u, u[p]) == u[..p] + u[p + 1..]
  {
    if p == 0 {
      WithoutAbsent(u[1..], u[0]);
    } else {
      WithoutAt(u[1..], p - 1);
      assert u[1..][p - 1] == u[p] && [u[0]] + u[1..][..p - 1] == u[..p];
    }
  }

  lemma YoungestOf(u: seq<Hash>, n: nat, h: Hash)
    requires n > 0
    ensures Youngest(u + [h], n) == Youngest(u, n - 1) + [h]
  {
  }

  lemma InYoungest(u: seq<Hash>, n: nat, p: nat)
    requires p < |u| && |u| - p <= n
    ensures u[p] in Youngest(u, n)
  {
    var drop := if |u| <= n then 0 else |u| - n;
    assert u[drop..][p - drop] == u[p];
  }

  lemma SliceOut(u: seq<Hash>, drop: nat, p: nat)
    requires drop <= p < |u|
    ensures (u[..p] + u[p + 1..])[drop..] == u[drop..][..p - drop] + u[drop..][p - drop + 1..]
  {
  }

  /** A put of a key that is among the young ones, */
  lemma TouchHit(u: seq<Hash>, capacity: nat, p: nat)
    requires Distinct(u) && capacity > 0 && p < |u| && |u| - p <= capacity
    ensures Touch(Youngest(u, capacity), capacity, u[p]) == Youngest(Without(u, u[p]), capacity - 1) + [u[p]]
  {
    var drop, h := if |u| <= capacity then 0 else |u| - capacity, u[p];
    var y := u[drop..];
    InYoungest(u, capacity, p);
    assert y[p - drop] == h && Distinct(y);
    WithoutAt(u, p);
    WithoutAt(y, p - drop);
    SliceOut(u, drop, p);
    assert Youngest(Without(u, h), capacity - 1) == Without(u, h)[drop..];
  }

  /** and of one that is not. */
  lemma TouchMiss(u: seq<Hash>, capacity: nat, h: Hash)
    requires Distinct(u) && capacity > 0 && h !in Youngest(u, capacity)
    ensures Touch(Youngest(u, capacity), capacity, h) == Youngest(Without(u, h), capacity - 1) + [h]
  {
    var y := Youngest(u, capacity);
    assert Touch(y, capacity, h) == Youngest(y, capacity - 1) + [h];
    YoungestKept(u, capacity - 1, h);
  }

  lemma YoungestKept(u: seq<Hash>, n: nat, h: Hash)
    requires Distinct(u) && h !in Youngest(u, n + 1)
    ensures Youngest(Without(u, h), n) == Youngest(Youngest(u, n + 1), n)
  {
    if h in u {
      var p :| 0 <= p < |u| && u[p] == h;
      WithoutAt(u, p);
      OldOut(u, n, p);
    } else {
      WithoutAbsent(u, h);
    }
  }

  lemma OldOut(u: seq<Hash>, n: nat, p: nat)
    requires p < |u| && |u| - p > n + 1
    ensures Youngest(u[..p] + u[p + 1..], n) == Youngest(Youngest(u, n + 1), n)
  {
  }

  /** The bounded list is the young end of the unbounded one, and a put keeps it so. */
  lemma TouchYoungest(u: seq<Hash>, capacity: nat, h: Hash)
    requires Distinct(u) && capacity > 0
    ensures Touch(Youngest(u, capacity), capacity, h) == Youngest(Without(u, h) + [h], capacity)
  {
    YoungestOf(Without(u, h), capacity, h);
    if h in Youngest(u, capacity) {
      var p :| 0 <= p < |u| && u[p] == h && |u| - p <= capacity;
      TouchHit(u, capacity, p);
    } else {
      TouchMiss(u, capacity, h);
    }
  }

  function LastUse(hs: seq<Hash>, h: Hash): (i: nat)
    requires h in hs
    ensures i < |hs| && hs[i] == h && forall j :: i < j < |hs| ==> hs[j] != h
  {
    if Last(hs) == h then |hs| - 1 else LastUse(DropLast(hs), h)
  }

  /** A place in a list without `h`, and the same place in the list with it. */
  lemma {:induction false} WithoutFrom(u: seq<Hash>, h: Hash, p: nat) returns (q: nat)
    requires p < |Without(u, h)|
    ensures q < |u| && u[q] == Without(u, h)[p] && Without(u[q..], h) == Without(u, h)[p..]
  {
    if u[0] != h && p == 0 {
      assert u[0..] == u;
      return 0;
    }
    q := WithoutFrom(u[1..], h, if u[0] == h then p else p - 1);
    assert u[1..][q..] == u[q + 1..];
    q := q + 1;
  }

  /** What was used since the last use of the key at `p` is what stands from `p` on. */
  ghost predicate StandsFor(hs: seq<Hash>, u: seq<Hash>, p: nat)
    requires p < |u|
  {
    u[p] in hs && Elems(hs[LastUse(hs, u[p])..]) == Elems(u[p..])
  }

  lemma {:induction false} WithoutDistinct(u: seq<Hash>, h: Hash)
    requires Distinct(u)
    ensures Distinct(Without(u, h))
  {
    if h in u {
      var p :| 0 <= p < |u| && u[p] == h;
      WithoutAt(u, p);
    } else {
      WithoutAbsent(u, h);
    }
  }

  lemma {:induction false} UsesAre(hs: seq<Hash>)
    ensures Distinct(Uses(hs)) && Elems(Uses(hs)) == Elems(hs)
    ensures forall p :: 0 <= p < |Uses(hs)| ==> StandsFor(hs, Uses(hs), p)
  {
    if hs != [] {
      var init, h := DropLast(hs), Last(hs);
      var u, w := Uses(init), Without(Uses(init), h);
      UsesAre(init);
      WithoutDistinct(u, h);
      WithoutElems(u, h);
      assert h !in Elems(w);
      ElemsConcat(w, [h]);
      ElemsConcat(init, [h]);
      assert hs == init + [h];
      forall p | 0 <= p < |w + [h]| ensures StandsFor(hs, w + [h], p) {
        StandsNext(init, h, p);
      }
    }
  }

  lemma StandsNext(init: seq<Hash>, h: Hash, p: nat)
    requires forall q :: 0 <= q < |Uses(init)| ==> StandsFor(init, Uses(init), q)
    requires p <= |Without(Uses(init), h)|
    ensures StandsFor(init + [h], Without(Uses(init), h) + [h], p)
  {
    var u, w := Uses(init), Without(Uses(init), h);
    if p == |w| {
      assert (init + [h])[|init|..] == [h] && (w + [h])[p..] == [h];
    } else {
      var q := WithoutFrom(u, h, p);
      assert StandsFor(init, u, q);
      WithoutElems(u, h);
      assert w[p] in Elems(w);
      WithoutElems(u[q..], h);
      StandsKept(init, h, u, q, w, p);
    }
  }

  lemma StandsKept(init: seq<Hash>, h: Hash, u: seq<Hash>, q: nat, w: seq<Hash>, p: nat)
    requires q < |u| && p < |w| && u[q] == w[p] && w[p] != h && Elems(w[p..]) == Elems(u[q..]) - {h}
    requires StandsFor(init, u, q)
    ensures StandsFor(init + [h], w + [h], p)
  {
    var hs, i := init + [h], LastUse(init, u[q]);
    assert LastUse(hs, u[q]) == i;
    assert hs[i..] == init[i..] + [h] && (w + [h])[p..] == w[p..] + [h];
    ElemsConcat(init[i..], [h]);
    ElemsConcat(w[p..], [h]);
  }

  lemma {:induction false} RecallIsYoungest(hs: seq<Hash>, capacity: nat)
    requires capacity > 0
    ensures Recall(hs, capacity) == Youngest(Uses(hs), capacity)
  {
    if hs != [] {
      RecallIsYoungest(DropLast(hs), capacity);
      UsesAre(DropLast(hs));
      TouchYoungest(Uses(DropLast(hs)), capacity, Last(hs));
    }
  }

  lemma {:induction false} DistinctCount(u: seq<Hash>)
    requires Distinct(u)
    ensures |Elems(u)| == |u|
  {
    if u != [] {
      DistinctCount(u[1..]);
      assert Elems(u) == Elems(u[1..]) + {u[0]};
    }
  }

  /** The list remembers a key exactly if at most `capacity` different keys, this one
      included, were put since some use of it. */
  lemma RemembersIff(hs: seq<Hash>, capacity: nat, h: Hash)
    requires capacity > 0
    ensures h in Recall(hs, capacity) <==> exists i :: 0 <= i < |hs| && hs[i] == h && |Elems(hs[i..])| <= capacity
    ensures |Recall(hs, capacity)| <= capacity
  {
    var u := Uses(hs);
    RecallIsYoungest(hs, capacity);
    UsesAre(hs);
    if h in Recall(hs, capacity) {
      var p :| 0 <= p < |u| && u[p] == h && |u| - p <= capacity;
      DistinctCount(u[p..]);
      assert StandsFor(hs, u, p);
      assert |Elems(hs[LastUse(hs, h)..])| <= capacity;
    }
    if i :| 0 <= i < |hs| && hs[i] == h && |Elems(hs[i..])| <= capacity {
      StillThere(hs, u, i, capacity);
    }
  }

  lemma StillThere(hs: seq<Hash>, u: seq<Hash>, i: nat, capacity: nat)
    requires Distinct(u) && Elems(u) == Elems(hs) && i < |hs| && |Elems(hs[i..])| <= capacity
    requires forall p :: 0 <= p < |u| ==> StandsFor(hs, u, p)
    ensures hs[i] in Youngest(u, capacity)
  {
    var h := hs[i];
    assert h in Elems(u);
    var p :| 0 <= p < |u| && u[p] == h;
    assert StandsFor(hs, u, p);
    var last := LastUse(hs, h);
    assert Elems(hs[last..]) <= Elems(hs[i..]) by {
      assert hs[i..] == hs[i..last] + hs[last..];
      ElemsConcat(hs[i..last], hs[last..]);
    }
    SubsetSize(Elems(hs[last..]), Elems(hs[i..]));
    DistinctCount(u[p..]);
    assert u[p..][0] == h;
    assert |u| > capacity ==> u[|u| - capacity..][p - (|u| - capacity)] == h;
  }
}
