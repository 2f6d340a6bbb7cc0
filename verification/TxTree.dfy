/** The transaction tree served over RPC, built from a flat list of transactions and
    their parents. */
module TxTree {
  import opened Basics
  import opened Transactions
  import opened Ancestry
  import opened Subsequences

  /** A listed transaction and its parent, if it has one. */
  type Row = (Hash, Option<Hash>)

  datatype Tree =
    | Root(children: seq<Tree>, hash: Hash)
    | Node(children: seq<Tree>, hash: Hash)
    | Leaf(hash: Hash)

  datatype RpcError = NotFound | InvalidRequest

  ghost predicate Distinct(txs: seq<Row>) {
    forall i, j :: 0 <= i < j < |txs| ==> txs[i].0 != txs[j].0
  }

  /** The parent links in the list. */
  function Links(txs: seq<Row>): Parents {
    if txs == [] then map[]
    else
      var p := Links(DropLast(txs));
      if Last(txs).1.Some? then p[Last(txs).0 := Last(txs).1.value] else p
  }

  lemma {:induction false} LinksHave(txs: seq<Row>, h: Hash)
    requires Distinct(txs)
    ensures h in Links(txs) <==> exists i :: 0 <= i < |txs| && txs[i].0 == h && txs[i].1.Some?
    ensures h in Links(txs) ==> (h, Some(Links(txs)[h])) in txs
    decreases |txs|
  {
    if txs != [] {
      var init := DropLast(txs);
      LinksHave(init, h);
      assert forall i :: 0 <= i < |init| ==> txs[i] == init[i];
      assert Last(txs) in txs;
    }
  }

  lemma LinksOf(txs: seq<Row>, i: nat)
    requires Distinct(txs) && i < |txs|
    ensures txs[i].1.Some? ==> txs[i].0 in Links(txs) && Links(txs)[txs[i].0] == txs[i].1.value
    ensures txs[i].1.None? ==> txs[i].0 !in Links(txs)
  {
    LinksHave(txs, txs[i].0);
  }

  ghost predicate Listed(txs: seq<Row>, h: Hash) {
    exists i :: 0 <= i < |txs| && txs[i].0 == h
  }

  /** The row of a listed hash, searched from the front. */
  function RowOf(txs: seq<Row>, h: Hash): (r: Row)
    requires Listed(txs, h)
    ensures r in txs && r.0 == h
  {
    if txs[0].0 == h then txs[0]
    else
      assert forall i :: 1 <= i < |txs| ==> txs[i] == txs[1..][i - 1];
      RowOf(txs[1..], h)
  }

  lemma ChildIsDeeper(txs: seq<Row>, h: Hash, i: nat)
    requires Distinct(txs) && Grounded(Links(txs), h) && i < |txs| && txs[i].1 == Some(h)
    ensures Grounded(Links(txs), txs[i].0) && Listed(txs, txs[i].0)
    ensures Height(Links(txs), h) < Height(Links(txs), txs[i].0) <= |Links(txs)|
  {
    LinksOf(txs, i);
    GroundedStep(Links(txs), txs[i].0);
    HeightBound(Links(txs), txs[i].0);
  }

  /** Descend from `h` to the rows that name it as parent. The recursion ends because
      children lie one step further from the top. */
  ghost function Build(h: Hash, txs: seq<Row>): Tree
    requires Distinct(txs) && Listed(txs, h) && Grounded(Links(txs), h)
    decreases |Links(txs)| - Height(Links(txs), h), |txs| + 1
  {
    HeightBound(Links(txs), h);
    var children := BuildChildren(h, txs, 0);
    if RowOf(txs, h).1.None? then Root(children, h)
    else if children == [] then Leaf(h)
    else Node(children, h)
  }

  ghost function BuildChildren(h: Hash, txs: seq<Row>, i: nat): seq<Tree>
    requires Distinct(txs) && Grounded(Links(txs), h) && i <= |txs|
    decreases |Links(txs)| - Height(Links(txs), h), |txs| - i
  {
    if i == |txs| then []
    else if txs[i].1 == Some(h) then
      ChildIsDeeper(txs, h, i);
      [Build(txs[i].0, txs)] + BuildChildren(h, txs, i + 1)
    else BuildChildren(h, txs, i + 1)
  }

  function Roots(txs: seq<Row>): seq<Hash> {
    if txs == [] then []
    else if txs[0].1.None? then [txs[0].0] + Roots(txs[1..])
    else Roots(txs[1..])
  }

  /** The root has to be there and has to be the only one. */
  ghost function GetTxTree(txs: seq<Row>): Result<Tree, RpcError>
    requires Distinct(txs)
  {
    var roots := Roots(txs);
    if roots == [] then Err(NotFound)
    else if |roots| > 1 then Err(InvalidRequest)
    else
      RootIsTop(txs, roots[0]);
      Ok(Build(roots[0], txs))
  }

  lemma {:induction false} RootsAre(txs: seq<Row>, h: Hash)
    ensures h in Roots(txs) <==> (h, None) in txs
  {
    if txs != [] {
      RootsAre(txs[1..], h);
      assert txs == [txs[0]] + txs[1..];
    }
  }

  lemma {:induction false} RootsCount(txs: seq<Row>)
    ensures |Roots(txs)| == 0 <==> forall i :: 0 <= i < |txs| ==> txs[i].1.Some?
    ensures |Roots(txs)| > 1 <==> exists i, j :: 0 <= i < j < |txs| && txs[i].1.None? && txs[j].1.None?
  {
    if txs != [] {
      RootsCount(txs[1..]);
      assert forall i :: 1 <= i < |txs| ==> txs[i] == txs[1..][i - 1];
      if |Roots(txs)| > 1 {
        if txs[0].1.None? {
          var j :| 0 <= j < |txs[1..]| && txs[1..][j].1.None?;
          assert txs[j + 1].1.None?;
        } else {
          var i, j :| 0 <= i < j < |txs[1..]| && txs[1..][i].1.None? && txs[1..][j].1.None?;
          assert txs[i + 1].1.None? && txs[j + 1].1.None?;
        }
      }
      if i, j :| 0 <= i < j < |txs| && txs[i].1.None? && txs[j].1.None? {
        assert txs[1..][j - 1].1.None?;
        if i > 0 {
          assert txs[1..][i - 1].1.None?;
        }
      }
    }
  }

  /** What is served: nothing without a row that has no parent, nothing with two of them,
      and a tree with exactly one. */
  lemma ServedIff(txs: seq<Row>)
    requires Distinct(txs)
    ensures GetTxTree(txs) == Err(NotFound) <==> forall i :: 0 <= i < |txs| ==> txs[i].1.Some?
    ensures GetTxTree(txs) == Err(InvalidRequest) <==>
            exists i, j :: 0 <= i < j < |txs| && txs[i].1.None? && txs[j].1.None?
    ensures GetTxTree(txs).Ok? <==> |Roots(txs)| == 1
    ensures GetTxTree(txs).Ok? ==> (HashOf(GetTxTree(txs).value), None) in txs
  {
    RootsCount(txs);
    if |Roots(txs)| == 1 {
      RootsAre(txs, Roots(txs)[0]);
    }
  }

  lemma RootIsTop(txs: seq<Row>, h: Hash)
    requires Distinct(txs) && h in Roots(txs)
    ensures Listed(txs, h) && Grounded(Links(txs), h) && h !in Links(txs)
  {
    RootsAre(txs, h);
    var i :| 0 <= i < |txs| && txs[i] == (h, None);
    LinksOf(txs, i);
    GroundedTop(Links(txs), h);
  }

  // ---------------------------------------------------------------- reading a tree back

  function HashOf(t: Tree): Hash {
    match t
    case Root(_, h) => h
    case Node(_, h) => h
    case Leaf(h) => h
  }

  function ChildrenOf(t: Tree): seq<Tree> {
    if t.Leaf? then [] else t.children
  }

  /** The rows a tree stands for: each node with its parent, top first. */
  function Rows(t: Tree, parent: Option<Hash>): seq<Row>
    decreases t, 1
  {
    [(HashOf(t), parent)] + if t.Leaf? then [] else RowsOfAll(t.children, HashOf(t))
  }

  function RowsOfAll(children: seq<Tree>, parent: Hash): seq<Row>
    decreases children, 0
  {
    if children == [] then []
    else Rows(children[0], Some(parent)) + RowsOfAll(children[1..], parent)
  }

  ghost predicate Below(p: Parents, x: Hash, h: Hash) {
    exists n: nat :: Up(p, x, n) == Some(h)
  }

  /** Two different children of one node have nothing below in common. */
  lemma ChildrenApart(p: Parents, x: Hash, a: Hash, b: Hash)
    requires a in p && b in p && p[a] == p[b] && Grounded(p, a)
    requires Below(p, x, a) && Below(p, x, b)
    ensures a == b
  {
    var m: nat :| Up(p, x, m) == Some(a);
    var n: nat :| Up(p, x, n) == Some(b);
    GroundedStep(p, a);
    GroundedStep(p, b);
    BelowIsGrounded(p, x, a);
    HeightBelow(p, x, m);
    HeightBelow(p, x, n);
  }

  lemma BelowIsGrounded(p: Parents, x: Hash, h: Hash)
    requires Below(p, x, h) && Grounded(p, h)
    ensures Grounded(p, x) && Height(p, h) <= Height(p, x)
  {
    var n: nat :| Up(p, x, n) == Some(h);
    UpAdds(p, x, n, Height(p, h));
    assert TopAt(p, x, n + Height(p, h));
    HeightBelow(p, x, n);
  }

  /** To lie below `h` is to be `h` or to lie below one of its children. */
  lemma BelowSplits(txs: seq<Row>, x: Hash, h: Hash)
    requires Distinct(txs)
    ensures Below(Links(txs), x, h) <==>
            x == h || exists i :: 0 <= i < |txs| && txs[i].1 == Some(h) && Below(Links(txs), x, txs[i].0)
  {
    var p := Links(txs);
    if Below(p, x, h) && x != h {
      var n: nat :| Up(p, x, n) == Some(h);
      UpSplitsLast(p, x, n, h);
      var c := Up(p, x, n - 1).value;
      LinksHave(txs, c);
      var i :| 0 <= i < |txs| && txs[i] == (c, Some(p[c]));
      assert Below(p, x, txs[i].0);
    }
    if i :| 0 <= i < |txs| && txs[i].1 == Some(h) && Below(p, x, txs[i].0) {
      LinksOf(txs, i);
      var n: nat :| Up(p, x, n) == Some(txs[i].0);
      UpAdds(p, x, n, 1);
      assert Up(p, txs[i].0, 1) == Up(p, h, 0);
      assert Up(p, x, n + 1) == Some(h);
    }
    assert Up(p, h, 0) == Some(h);
  }

  lemma {:induction false} UpSplitsLast(p: Parents, x: Hash, n: nat, h: Hash)
    requires Up(p, x, n) == Some(h) && x != h
    ensures n > 0 && Up(p, x, n - 1).Some? && Up(p, x, n - 1).value in p && p[Up(p, x, n - 1).value] == h
    decreases n
  {
    if p[x] != h {
      UpSplitsLast(p, p[x], n - 1, h);
    } else if n > 1 {
      UpLast(p, x, n);
    }
  }

  lemma {:induction false} UpLast(p: Parents, x: Hash, n: nat)
    requires n > 0 && Up(p, x, n).Some?
    ensures Up(p, x, n - 1).Some? && Up(p, x, n - 1).value in p
    ensures Up(p, x, n) == Some(p[Up(p, x, n - 1).value])
    decreases n
  {
    if n > 1 {
      UpLast(p, p[x], n - 1);
    }
  }

  // ---------------------------------------------------------------- faithfulness

  ghost function Times(rows: seq<Row>, r: Row): nat {
    multiset(rows)[r]
  }

  lemma TimesConcat(a: seq<Row>, b: seq<Row>, r: Row)
    ensures Times(a + b, r) == Times(a, r) + Times(b, r)
  {
    assert multiset(a + b) == multiset(a) + multiset(b);
  }

  /** The rows from `i` on that are children of `h` have `x` below one of them. */
  ghost predicate BelowLater(txs: seq<Row>, h: Hash, i: nat, x: Hash) {
    exists j :: i <= j < |txs| && txs[j].1 == Some(h) && Below(Links(txs), x, txs[j].0)
  }

  lemma BelowLaterStep(txs: seq<Row>, h: Hash, i: nat, x: Hash)
    requires i < |txs|
    ensures BelowLater(txs, h, i, x) <==>
            (txs[i].1 == Some(h) && Below(Links(txs), x, txs[i].0)) || BelowLater(txs, h, i + 1, x)
  {
  }

  /** Only one child can have `x` below it. */
  lemma BelowOnce(txs: seq<Row>, h: Hash, i: nat, x: Hash)
    requires Distinct(txs) && Grounded(Links(txs), h) && i < |txs|
    requires txs[i].1 == Some(h) && Below(Links(txs), x, txs[i].0)
    ensures !BelowLater(txs, h, i + 1, x)
  {
    if j :| i + 1 <= j < |txs| && txs[j].1 == Some(h) && Below(Links(txs), x, txs[j].0) {
      LinksOf(txs, i);
      LinksOf(txs, j);
      ChildIsDeeper(txs, h, i);
      ChildrenApart(Links(txs), x, txs[i].0, txs[j].0);
    }
  }

  /** `h` itself is not below its children. */
  lemma NotBelowChildren(txs: seq<Row>, h: Hash, i: nat)
    requires Distinct(txs) && Grounded(Links(txs), h) && i < |txs| && txs[i].1 == Some(h)
    ensures !Below(Links(txs), h, txs[i].0)
  {
    ChildIsDeeper(txs, h, i);
    if Below(Links(txs), h, txs[i].0) {
      BelowIsGrounded(Links(txs), h, txs[i].0);
    }
  }

  /** The tree under `h` holds each row below `h` once and nothing else. */
  lemma {:induction false} BuildRows(h: Hash, txs: seq<Row>, r: Row)
    requires Distinct(txs) && Listed(txs, h) && Grounded(Links(txs), h)
    ensures Times(Rows(Build(h, txs), RowOf(txs, h).1), r)
         == if r in txs && Below(Links(txs), r.0, h) then 1 else 0
    decreases |Links(txs)| - Height(Links(txs), h), |txs| + 1
  {
    HeightBound(Links(txs), h);
    var row, children := RowOf(txs, h), BuildChildren(h, txs, 0);
    ChildrenRows(h, txs, 0, r);
    BuildShape(h, txs);
    TimesConcat([row], RowsOfAll(children, h), r);
    BelowSplits(txs, r.0, h);
    assert BelowLater(txs, h, 0, r.0) <==>
           exists i :: 0 <= i < |txs| && txs[i].1 == Some(h) && Below(Links(txs), r.0, txs[i].0);
    SameHashSameRow(txs, row, r);
    if r.0 == h && BelowLater(txs, h, 0, h) {
      var j :| 0 <= j < |txs| && txs[j].1 == Some(h) && Below(Links(txs), h, txs[j].0);
      NotBelowChildren(txs, h, j);
    }
  }

  lemma SameHashSameRow(txs: seq<Row>, a: Row, b: Row)
    requires Distinct(txs) && a in txs
    ensures b in txs && a.0 == b.0 ==> a == b
  {
  }

  lemma BuildShape(h: Hash, txs: seq<Row>)
    requires Distinct(txs) && Listed(txs, h) && Grounded(Links(txs), h)
    ensures Rows(Build(h, txs), RowOf(txs, h).1) == [RowOf(txs, h)] + RowsOfAll(BuildChildren(h, txs, 0), h)
  {
    var t := Build(h, txs);
    assert HashOf(t) == h;
    assert ChildrenOf(t) == BuildChildren(h, txs, 0);
    if t.Leaf? {
      assert RowsOfAll(BuildChildren(h, txs, 0), h) == [];
    }
  }

  lemma {:induction false} ChildrenRows(h: Hash, txs: seq<Row>, i: nat, r: Row)
    requires Distinct(txs) && Grounded(Links(txs), h) && i <= |txs|
    ensures Times(RowsOfAll(BuildChildren(h, txs, i), h), r)
         == if r in txs && BelowLater(txs, h, i, r.0) then 1 else 0
    decreases |Links(txs)| - Height(Links(txs), h), |txs| - i
  {
    if i < |txs| {
      ChildrenRows(h, txs, i + 1, r);
      BelowLaterStep(txs, h, i, r.0);
      if txs[i].1 == Some(h) {
        ChildIsDeeper(txs, h, i);
        var c := txs[i].0;
        BuildRows(c, txs, r);
        SameHashSameRow(txs, RowOf(txs, c), txs[i]);
        var rest := BuildChildren(h, txs, i + 1);
        assert ([Build(c, txs)] + rest)[1..] == rest;
        TimesConcat(Rows(Build(c, txs), Some(h)), RowsOfAll(rest, h), r);
        if Below(Links(txs), r.0, c) {
          BelowOnce(txs, h, i, r.0);
        }
      }
    }
  }

  // ---------------------------------------------------------------- the served tree

  function HashesOf(txs: seq<Row>): seq<Hash> {
    seq(|txs|, i requires 0 <= i < |txs| => txs[i].0)
  }

  function TopsOf(trees: seq<Tree>): seq<Hash> {
    seq(|trees|, i requires 0 <= i < |trees| => HashOf(trees[i]))
  }

  lemma {:induction false} ChildrenFrom(h: Hash, txs: seq<Row>, i: nat)
    requires Distinct(txs) && Grounded(Links(txs), h) && i <= |txs|
    ensures InOrderOf(TopsOf(BuildChildren(h, txs, i)), HashesOf(txs[i..]))
    decreases |txs| - i
  {
    if i == |txs| {
      NothingInOrder(HashesOf(txs[i..]));
      assert TopsOf(BuildChildren(h, txs, i)) == [];
    } else {
      var rest := BuildChildren(h, txs, i + 1);
      ChildrenFrom(h, txs, i + 1);
      assert HashesOf(txs[i..]) == [txs[i].0] + HashesOf(txs[i + 1..]);
      InOrderBehind(TopsOf(rest), HashesOf(txs[i + 1..]), txs[i].0);
      if txs[i].1 == Some(h) {
        ChildIsDeeper(txs, h, i);
        var t := Build(txs[i].0, txs);
        assert TopsOf([t] + rest) == [txs[i].0] + TopsOf(rest);
      }
    }
  }

  /** The children of a node stand in the order of the list. */
  lemma ChildrenInListOrder(h: Hash, txs: seq<Row>)
    requires Distinct(txs) && Listed(txs, h) && Grounded(Links(txs), h)
    ensures InOrderOf(TopsOf(ChildrenOf(Build(h, txs))), HashesOf(txs))
  {
    ChildrenFrom(h, txs, 0);
    assert txs[0..] == txs;
    assert ChildrenOf(Build(h, txs)) == BuildChildren(h, txs, 0);
  }

  /** Every parent named in the list is listed itself. */
  ghost predicate Closed(txs: seq<Row>) {
    forall i :: 0 <= i < |txs| && txs[i].1.Some? ==> Listed(txs, txs[i].1.value)
  }

  lemma {:induction false} TopIsRoot(txs: seq<Row>, h: Hash)
    requires Distinct(txs) && Closed(txs) && Listed(txs, h) && Grounded(Links(txs), h)
    ensures Top(Links(txs), h) in Roots(txs)
    decreases Height(Links(txs), h)
  {
    var p := Links(txs);
    LinksHave(txs, h);
    if h in p {
      GroundedStep(p, h);
      TopIsRoot(txs, p[h]);
    } else {
      GroundedTop(p, h);
      var i :| 0 <= i < |txs| && txs[i].0 == h;
      assert txs[i] == (h, None);
      RootsAre(txs, h);
    }
  }

  lemma OnlyRoot(txs: seq<Row>, root: Hash, h: Hash)
    requires Distinct(txs) && Closed(txs) && Roots(txs) == [root] && Listed(txs, h)
    ensures Below(Links(txs), h, root) <==> Grounded(Links(txs), h)
  {
    var p := Links(txs);
    RootIsTop(txs, root);
    if Grounded(p, h) {
      TopIsRoot(txs, h);
      assert Up(p, h, Height(p, h)) == Some(root);
    }
    if Below(p, h, root) {
      BelowIsGrounded(p, h, root);
    }
  }

  lemma {:induction false} DistinctOnce(txs: seq<Row>, r: Row)
    requires Distinct(txs)
    ensures Times(txs, r) == if r in txs then 1 else 0
    decreases |txs|
  {
    if txs != [] {
      assert txs == DropLast(txs) + [Last(txs)];
      DistinctOnce(DropLast(txs), r);
      TimesConcat(DropLast(txs), [Last(txs)], r);
    }
  }

  /** Which rows the served tree holds: each listed row that leads up to the root
      exactly once, and no other. */
  lemma ServedRows(txs: seq<Row>, r: Row)
    requires Distinct(txs) && Closed(txs) && |Roots(txs)| == 1
    ensures GetTxTree(txs).Ok?
    ensures Times(Rows(GetTxTree(txs).value, None), r) == if r in txs && Grounded(Links(txs), r.0) then 1 else 0
  {
    var root := Roots(txs)[0];
    RootIsTop(txs, root);
    RootsAre(txs, root);
    SameHashSameRow(txs, RowOf(txs, root), (root, None));
    BuildRows(root, txs, r);
    if r in txs {
      assert Listed(txs, r.0);
      OnlyRoot(txs, root, r.0);
    }
  }

  /** The tree reads back to the whole list, each row once, exactly when the list has
      no cycle. */
  lemma TreeIsFaithfulIff(txs: seq<Row>)
    requires Distinct(txs) && Closed(txs) && |Roots(txs)| == 1
    ensures GetTxTree(txs).Ok?
    ensures multiset(Rows(GetTxTree(txs).value, None)) == multiset(txs) <==> Acyclic(Links(txs))
  {
    ServedRows(txs, txs[0]);
    var rows := Rows(GetTxTree(txs).value, None);
    AcyclicIffGrounded(Links(txs));
    if Acyclic(Links(txs)) {
      forall r ensures multiset(rows)[r] == multiset(txs)[r] {
        ServedRows(txs, r);
        DistinctOnce(txs, r);
        assert Times(rows, r) == Times(txs, r);
      }
    }
    if multiset(rows) == multiset(txs) {
      forall h: Hash ensures Grounded(Links(txs), h) {
        if h in Links(txs) {
          LinksHave(txs, h);
          var r := (h, Some(Links(txs)[h]));
          ServedRows(txs, r);
          DistinctOnce(txs, r);
          assert Times(rows, r) == Times(txs, r);
        } else {
          GroundedTop(Links(txs), h);
        }
      }
    }
  }

  // ---------------------------------------------------------------- tags

  /** Below the top: a Leaf has no children, a Node has some, a Root never occurs. */
  ghost predicate Tagged(t: Tree)
    decreases t, 1
  {
    match t
    case Leaf(_) => true
    case Node(children, _) => children != [] && AllTagged(children)
    case Root(_, _) => false
  }

  ghost predicate AllTagged(children: seq<Tree>)
    decreases children, 0
  {
    children == [] || (Tagged(children[0]) && AllTagged(children[1..]))
  }

  lemma {:induction false} ChildrenTagged(h: Hash, txs: seq<Row>, i: nat)
    requires Distinct(txs) && Grounded(Links(txs), h) && i <= |txs|
    ensures AllTagged(BuildChildren(h, txs, i))
    decreases |Links(txs)| - Height(Links(txs), h), |txs| - i
  {
    if i < |txs| {
      ChildrenTagged(h, txs, i + 1);
      if txs[i].1 == Some(h) {
        ChildIsDeeper(txs, h, i);
        var c := txs[i].0;
        SameHashSameRow(txs, RowOf(txs, c), txs[i]);
        ChildrenTagged(c, txs, 0);
        var rest := BuildChildren(h, txs, i + 1);
        assert ([Build(c, txs)] + rest)[1..] == rest;
      }
    }
  }

  /** Tags match positions: the top, and only the top, is a Root. */
  lemma TagsMatchPositions(txs: seq<Row>)
    requires Distinct(txs) && |Roots(txs)| == 1
    ensures GetTxTree(txs).Ok?
    ensures GetTxTree(txs).value.Root? && AllTagged(GetTxTree(txs).value.children)
  {
    var root := Roots(txs)[0];
    RootIsTop(txs, root);
    RootsAre(txs, root);
    SameHashSameRow(txs, RowOf(txs, root), (root, None));
    ChildrenTagged(root, txs, 0);
  }
}
