/** Sequences taken out of other sequences without changing the order. */
module Subsequences {

  /** `idx` shows where the elements of `a` stand in `b`. */
  ghost predicate Picks<T>(idx: seq<nat>, a: seq<T>, b: seq<T>) {
    && |idx| == |a|
    && (forall i, j :: 0 <= i < j < |idx| ==> idx[i] < idx[j])
    && (forall i :: 0 <= i < |idx| ==> idx[i] < |b| && b[idx[i]] == a[i])
  }

  /** The elements of `a` occur in `b`, at increasing positions. */
  ghost predicate InOrderOf<T>(a: seq<T>, b: seq<T>) {
    exists idx: seq<nat> :: Picks(idx, a, b)
  }

  lemma NothingInOrder<T>(b: seq<T>)
    ensures InOrderOf([], b)
  {
    assert Picks([], [], b);
  }

  lemma InOrderTrans<T>(a: seq<T>, b: seq<T>, c: seq<T>)
    requires InOrderOf(a, b) && InOrderOf(b, c)
    ensures InOrderOf(a, c)
  {
    var f: seq<nat> :| Picks(f, a, b);
    var g: seq<nat> :| Picks(g, b, c);
    var h := seq(|a|, i requires 0 <= i < |a| => g[f[i]]);
    assert Picks(h, a, c);
  }

  lemma InOrderGrows<T>(a: seq<T>, b: seq<T>, x: T)
    requires InOrderOf(a, b)
    ensures InOrderOf(a, b + [x]) && InOrderOf(a + [x], b + [x])
  {
    var f: seq<nat> :| Picks(f, a, b);
    assert Picks(f, a, b + [x]);
    assert Picks(f + [|b|], a + [x], b + [x]);
  }

  lemma InOrderBehind<T>(a: seq<T>, b: seq<T>, x: T)
    requires InOrderOf(a, b)
    ensures InOrderOf(a, [x] + b) && InOrderOf([x] + a, [x] + b)
  {
    var f: seq<nat> :| Picks(f, a, b);
    var g: seq<nat> := seq(|a|, i requires 0 <= i < |a| => f[i] + 1);
    assert Picks(g, a, [x] + b);
    assert Picks([0] + g, [x] + a, [x] + b);
  }

  /** Leaving out a stretch. */
  lemma CutInOrder<T>(a: seq<T>, b: seq<T>, c: seq<T>)
    ensures InOrderOf(a + c, a + b + c)
  {
    var idx := seq(|a| + |c|, i requires 0 <= i < |a| + |c| => if i < |a| then i else i + |b|);
    assert Picks(idx, a + c, a + b + c);
  }

  lemma SuffixInOrder<T>(s: seq<T>, n: nat)
    requires n <= |s|
    ensures InOrderOf(s[n..], s)
  {
    CutInOrder([], s[..n], s[n..]);
    assert [] + s[..n] + s[n..] == s && [] + s[n..] == s[n..];
  }

  /** The elements with a property. */
  function Only<T>(f: T -> bool, s: seq<T>): seq<T> {
    if s == [] then [] else (if f(s[0]) then [s[0]] else []) + Only(f, s[1..])
  }

  lemma {:induction false} OnlyConcat<T>(f: T -> bool, a: seq<T>, b: seq<T>)
    ensures Only(f, a + b) == Only(f, a) + Only(f, b)
  {
    if a == [] {
      assert a + b == b;
    } else {
      OnlyConcat(f, a[1..], b);
      assert (a + b)[1..] == a[1..] + b;
    }
  }

  lemma {:induction false} OnlyAll<T>(f: T -> bool, s: seq<T>)
    requires forall i :: 0 <= i < |s| ==> f(s[i])
    ensures Only(f, s) == s
  {
    if s != [] {
      OnlyAll(f, s[1..]);
    }
  }

  lemma {:induction false} OnlyNone<T>(f: T -> bool, s: seq<T>)
    requires forall i :: 0 <= i < |s| ==> !f(s[i])
    ensures Only(f, s) == []
  {
    if s != [] {
      OnlyNone(f, s[1..]);
    }
  }

  lemma {:induction false} OnlyCommutes<T>(f: T -> bool, g: T -> bool, s: seq<T>)
    ensures Only(f, Only(g, s)) == Only(g, Only(f, s))
  {
    if s != [] {
      OnlyCommutes(f, g, s[1..]);
      OnlyConcat(f, if g(s[0]) then [s[0]] else [], Only(g, s[1..]));
      OnlyConcat(g, if f(s[0]) then [s[0]] else [], Only(f, s[1..]));
    }
  }

  lemma {:induction false} OnlyInOrder<T>(f: T -> bool, s: seq<T>)
    ensures InOrderOf(Only(f, s), s)
  {
    if s == [] {
      NothingInOrder(s);
    } else {
      var init, x := s[..|s| - 1], s[|s| - 1];
      assert s == init + [x];
      OnlyInOrder(f, init);
      OnlyConcat(f, init, [x]);
      InOrderGrows(Only(f, init), init, x);
      assert Only(f, [x]) == if f(x) then [x] else [];
      assert Only(f, init) + [] == Only(f, init);
    }
  }
}
