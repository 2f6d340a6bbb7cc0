/** What one pass of the pipeline can look like, given what is parked where. */
module AdmissionShape {
  import opened Basics
  import opened Transactions
  import opened AdmissionModel

  ghost predicate AllRuns(txs: seq<Tx>) {
    forall i :: 0 <= i < |txs| ==> txs[i].payload.Run?
  }

  ghost predicate NoRuns(txs: seq<Tx>) {
    forall i :: 0 <= i < |txs| ==> !txs[i].payload.Run?
  }

  lemma {:induction false} FirstUnknownFinds(known: Known, ps: seq<Hash>)
    ensures match FirstUnknown(known, ps)
            case Some(p) => p in ps && !known.Has(p)
            case None => Elems(ps) <= known.Content()
  {
    if ps != [] {
      FirstUnknownFinds(known, ps[1..]);
      assert ps == [ps[0]] + ps[1..];
    }
  }

  lemma ParkOnProgramKeeps(s: Pipeline, key: Hash, tx: Tx)
    requires WellParked(s) && tx.payload.Run? && key in RunPrograms(tx.payload)
    ensures WellParked(ParkOnProgram(s, key, tx))
  {
  }

  lemma ParkOnParentKeeps(s: Pipeline, key: Hash, tx: Tx)
    requires WellParked(s) && ParentOf(tx.payload) == Some(key)
    ensures WellParked(ParkOnParent(s, key, tx))
  {
  }

  lemma {:induction false} ReleaseShape(s: Pipeline, ps: seq<Hash>)
    requires WellParked(s)
    ensures var r := Release(s, ps);
            && WellParked(r.state) && AllRuns(r.txs)
            && r.state.parents == s.parents
            && r.state.programs.waiting.Keys == s.programs.waiting.Keys - Elems(ps)
    decreases |ps|
  {
    if ps != [] {
      ReleaseShape(ReleaseOne(s, ps[0]), ps[1..]);
      assert Elems(ps) == {ps[0]} + Elems(ps[1..]) by {
        assert ps == [ps[0]] + ps[1..];
      }
    }
  }

  /** A program check parks the transaction or returns it first, followed only by Runs. */
  lemma ProgramDepShape(s: Pipeline, tx: Tx)
    requires WellParked(s)
    ensures var r := ProgramDep(s, tx);
            && WellParked(r.state)
            && r.state.parents == s.parents
            && (r.txs == [] || (r.txs[0] == tx && AllRuns(r.txs[1..])))
            && (r.txs == [] <==> FirstUnknown(s.programs.known, RunPrograms(tx.payload)).Some?)
            && (!tx.payload.Deploy? ==> r.txs == [] || r.txs == [tx])
            && (!tx.payload.Deploy? ==> r.state.programs.known == s.programs.known)
            && (!tx.payload.Run? ==> r.txs != [])
  {
    FirstUnknownFinds(s.programs.known, RunPrograms(tx.payload));
    match FirstUnknown(s.programs.known, RunPrograms(tx.payload))
    case Some(p) => ParkOnProgramKeeps(s, p, tx);
    case None => ReleaseShape(s, DeployPrograms(tx.payload));
  }

  lemma {:induction false} RevalidateNoRuns(s: Pipeline, txs: seq<Tx>)
    requires NoRuns(txs)
    ensures Revalidate(s, txs) == Outcome(s, txs)
    decreases |txs|
  {
    if txs != [] {
      RevalidateNoRuns(s, txs[1..]);
      assert txs == [txs[0]] + txs[1..];
    }
  }

  /** What becomes of `tx` itself once its parent is no obstacle. */
  ghost function Own(s: Pipeline, tx: Tx): Outcome {
    Recheck(DropChildren(s, tx.hash), tx)
  }

  lemma OwnShape(s: Pipeline, tx: Tx)
    requires WellParked(s)
    ensures var r := Own(s, tx);
            && WellParked(r.state)
            && r.state.parents == DropChildren(s, tx.hash).parents
            && r.state.programs.known == s.programs.known
            && (r.txs == [] || r.txs == [tx])
            && (r.txs == [] <==> tx.payload.Run? && FirstUnknown(s.programs.known, RunPrograms(tx.payload)).Some?)
  {
    assert WellParked(DropChildren(s, tx.hash));
    ProgramDepShape(DropChildren(s, tx.hash), tx);
  }

  /** A parent check that goes through gives the transaction, unless it is a Run
      that has to wait again, and then its children. */
  lemma ParentDepFree(s: Pipeline, tx: Tx)
    requires WellParked(s) && !ParentMissing(s, tx)
    ensures var r, own, children := ParentDep(s, tx), Own(s, tx), Waiters(s.parents.waiting, tx.hash);
            && r.txs == own.txs + children
            && NoRuns(children) && ChildrenOf(tx.hash, children)
            && r.state == own.state.(parents := own.state.parents.(known := s.parents.known.LearnAll(Hashes(r.txs))))
            && WellParked(r.state)
  {
    var s0, children := DropChildren(s, tx.hash), Waiters(s.parents.waiting, tx.hash);
    OwnShape(s, tx);
    var own := Own(s, tx);
    assert ([tx] + children)[0] == tx && ([tx] + children)[1..] == children;
    RevalidateNoRuns(own.state, children);
    assert Revalidate(s0, [tx] + children) == Outcome(own.state, own.txs + children);
  }

  lemma ParentDepShape(s: Pipeline, tx: Tx)
    requires WellParked(s)
    ensures var r := ParentDep(s, tx);
            && WellParked(r.state)
            && r.state.programs.known == s.programs.known
  {
    if ParentMissing(s, tx) {
      ParkOnParentKeeps(s, ParentOf(tx.payload).value, tx);
    } else {
      ParentDepFree(s, tx);
      OwnShape(s, tx);
    }
  }

  lemma {:induction false} ParentDepsShape(s: Pipeline, txs: seq<Tx>)
    requires WellParked(s)
    ensures var r := ParentDeps(s, txs);
            && WellParked(r.state)
            && r.state.programs.known == s.programs.known
    decreases |txs|
  {
    if txs != [] {
      ParentDepShape(s, txs[0]);
      ParentDepsShape(ParentDep(s, txs[0]).state, txs[1..]);
    }
  }

  lemma HandleEventShape(s: Pipeline, ev: Event)
    requires WellParked(s)
    ensures WellParked(HandleEvent(s, ev).state)
  {
    ProgramDepShape(s, ev.tx);
    var r := ProgramDep(s, ev.tx);
    ParentDepsShape(r.state, r.txs);
  }

  /** In every reachable state only Runs wait for programs and only children wait
      for parents, each under a key of its own. */
  lemma {:induction false} AlwaysWellParked(s: Pipeline, evs: seq<Event>)
    requires WellParked(s)
    ensures WellParked(HandleEvents(s, evs).state)
  {
    if evs != [] {
      AlwaysWellParked(s, DropLast(evs));
      HandleEventShape(HandleEvents(s, DropLast(evs)).state, Last(evs));
    }
  }
}
