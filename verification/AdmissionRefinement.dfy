/** The bounded caches are invisible: with room for two programs and saves that
    succeed, the pipeline over cache and storage emits and parks exactly what the
    pipeline over one unbounded set does. With room for one it does not. */
module AdmissionRefinement {
  import opened Basics
  import opened Transactions
  import opened AdmissionModel
  import opened AdmissionShape
  import opened AdmissionOrder

  ghost predicate SameParked(c: Cache, e: Cache) {
    c.waiting == e.waiting && c.limits == e.limits && c.evicted == e.evicted
  }

  /** Equal up to how the keys are known, and equal in which programs are known. */
  ghost predicate Matches(c: Pipeline, e: Pipeline) {
    && SameParked(c.programs, e.programs) && SameParked(c.parents, e.parents)
    && c.clock == e.clock && c.ticks == e.ticks
    && c.programs.known.Cached? && c.parents.known.Cached? && e.parents.known.Exact?
    && e.programs.known == Exact(c.programs.known.Content())
  }

  /** Whatever a cache remembers is in storage too. */
  ghost predicate Settled(known: Known) {
    known.Cached? && Elems(known.recent) <= known.stored
  }

  /** The relation that holds between any two events. */
  ghost predicate Simulates(c: Pipeline, e: Pipeline) {
    && Matches(c, e)
    && e.parents.known == Exact(c.parents.known.Content())
    && Settled(c.programs.known) && Settled(c.parents.known)
  }

  /** `b` is `a` after some keys of `hs` were remembered. */
  ghost predicate Grew(a: Known, b: Known, hs: set<Hash>) {
    && a.Cached? && b.Cached?
    && b.capacity == a.capacity && b.stored == a.stored
    && Elems(b.recent) <= Elems(a.recent) + hs
  }

  // ---------------------------------------------------------------- the bounded list

  lemma TouchElems(recent: seq<Hash>, capacity: nat, h: Hash)
    ensures Elems(Touch(recent, capacity, h)) <= Elems(recent) + {h}
  {
    WithoutElems(recent, h);
    ElemsConcat(Without(recent, h), [h]);
  }

  lemma {:induction false} LearnAllGrew(known: Known, hs: seq<Hash>)
    requires known.Cached?
    ensures Grew(known, known.LearnAll(hs), Elems(hs))
    decreases |hs|
  {
    if hs != [] {
      TouchElems(known.recent, known.capacity, hs[0]);
      LearnAllGrew(known.Learn(hs[0]), hs[1..]);
      assert hs == [hs[0]] + hs[1..];
    }
  }

  /** All but the youngest remembered key are in storage. */
  ghost predicate OneAhead(known: Known) {
    known.Cached? && forall i :: 0 <= i < |known.recent| - 1 ==> known.recent[i] in known.stored
  }

  /** From a settled cache the first new program costs nothing: only a stored key
      can fall out. */
  lemma LearnFirst(known: Known, h: Hash)
    requires Settled(known)
    ensures known.Learn(h).Content() == known.Content() + {h}
    ensures OneAhead(known.Learn(h))
  {
    WithoutElems(known.recent, h);
    ElemsConcat(Without(known.recent, h), [h]);
    var recent' := known.Learn(h).recent;
    forall i | 0 <= i < |recent'| - 1 ensures recent'[i] in known.stored {
      assert recent'[i] in Elems(known.recent) by {
        if h in known.recent {
          assert recent'[i] == Without(known.recent, h)[i];
          assert recent'[i] in Elems(Without(known.recent, h));
        }
      }
    }
  }

  /** The second costs nothing either if the first still fits beside it. */
  lemma LearnSecond(known: Known, h: Hash)
    requires OneAhead(known) && known.capacity >= 2
    ensures known.Learn(h).Content() == known.Content() + {h}
  {
    WithoutElems(known.recent, h);
    ElemsConcat(Without(known.recent, h), [h]);
    if h !in known.recent && known.recent != [] && |known.recent| >= known.capacity {
      assert known.recent == [known.recent[0]] + known.recent[1..];
      ElemsConcat([known.recent[0]], known.recent[1..]);
      ElemsConcat(known.recent[1..], [h]);
    } else {
      ElemsConcat(known.recent, [h]);
    }
  }

  lemma {:induction false} FirstUnknownSame(a: Known, b: Known, ps: seq<Hash>)
    requires a.Content() == b.Content()
    ensures FirstUnknown(a, ps) == FirstUnknown(b, ps)
  {
    if ps != [] {
      FirstUnknownSame(a, b, ps[1..]);
    }
  }

  // ---------------------------------------------------------------- one event

  lemma ParkSame(c: Cache, e: Cache, key: Hash, tx: Tx, clock: nat -> int, ticks: nat)
    requires SameParked(c, e)
    ensures SameParked(Park(c, key, tx, clock, ticks), Park(e, key, tx, clock, ticks))
    ensures Park(c, key, tx, clock, ticks).known == c.known && Park(e, key, tx, clock, ticks).known == e.known
  {
    assert SameParked(Room(c, clock, ticks), Room(e, clock, ticks));
  }

  lemma ReleaseOneMatches(c: Pipeline, e: Pipeline, p: Hash)
    requires Matches(c, e)
    requires c.programs.known.Learn(p).Content() == c.programs.known.Content() + {p}
    ensures Matches(ReleaseOne(c, p), ReleaseOne(e, p))
    ensures Grew(c.programs.known, ReleaseOne(c, p).programs.known, {p})
  {
    TouchElems(c.programs.known.recent, c.programs.known.capacity, p);
  }

  /** A Deploy releases the same transactions on both sides. */
  lemma ReleaseMatches(c: Pipeline, e: Pipeline, p: Hash, q: Hash)
    requires Matches(c, e) && Settled(c.programs.known) && c.programs.known.capacity >= 2
    ensures Release(c, [p, q]).txs == Release(e, [p, q]).txs
    ensures Matches(Release(c, [p, q]).state, Release(e, [p, q]).state)
    ensures Grew(c.programs.known, Release(c, [p, q]).state.programs.known, {p, q})
    ensures Release(c, [p, q]).state.parents == c.parents && Release(e, [p, q]).state.parents == e.parents
  {
    LearnFirst(c.programs.known, p);
    ReleaseOneMatches(c, e, p);
    var c1, e1 := ReleaseOne(c, p), ReleaseOne(e, p);
    LearnSecond(c1.programs.known, q);
    ReleaseOneMatches(c1, e1, q);
    ReleaseTwice(c, p, q);
    ReleaseTwice(e, p, q);
  }

  lemma ReleaseTwice(s: Pipeline, p: Hash, q: Hash)
    ensures Release(s, [p, q]).state == ReleaseOne(ReleaseOne(s, p), q)
    ensures Release(s, [p, q]).txs == Waiters(s.programs.waiting, p) + Waiters(ReleaseOne(s, p).programs.waiting, q)
  {
    var s1 := ReleaseOne(s, p);
    assert [p, q][1..] == [q] && [q][1..] == [];
    assert Release(s1, [q]) == Outcome(ReleaseOne(s1, q), Waiters(s1.programs.waiting, q) + []);
  }

  lemma ProgramDepMatches(c: Pipeline, e: Pipeline, tx: Tx)
    requires Matches(c, e)
    requires tx.payload.Deploy? ==> Settled(c.programs.known) && c.programs.known.capacity >= 2
    ensures var rc, re := ProgramDep(c, tx), ProgramDep(e, tx);
            && rc.txs == re.txs && Matches(rc.state, re.state)
            && Grew(c.programs.known, rc.state.programs.known, Provides(ByProgram, tx))
            && rc.state.parents == c.parents && re.state.parents == e.parents
  {
    FirstUnknownSame(c.programs.known, e.programs.known, RunPrograms(tx.payload));
    match FirstUnknown(c.programs.known, RunPrograms(tx.payload))
    case Some(p) => ParkSame(c.programs, e.programs, p, tx, c.clock, c.ticks);
    case None =>
      if tx.payload.Deploy? {
        ReleaseMatches(c, e, tx.payload.prover, tx.payload.verifier);
      }
  }

  lemma OwnMatches(c: Pipeline, e: Pipeline, tx: Tx)
    requires Matches(c, e)
    ensures Own(c, tx).txs == Own(e, tx).txs
    ensures Matches(Own(c, tx).state, Own(e, tx).state)
  {
    var c0, e0 := DropChildren(c, tx.hash), DropChildren(e, tx.hash);
    assert Matches(c0, e0);
    if tx.payload.Run? {
      ProgramDepMatches(c0, e0, tx);
    }
  }

  lemma ParentDepMatches(c: Pipeline, e: Pipeline, tx: Tx)
    requires Matches(c, e) && WellParked(c) && WellParked(e)
    requires ParentOf(tx.payload).Some? ==> e.parents.known == Exact(c.parents.known.Content())
    ensures var rc, re := ParentDep(c, tx), ParentDep(e, tx);
            && rc.txs == re.txs && Matches(rc.state, re.state)
            && Grew(c.parents.known, rc.state.parents.known, Gain(ByParent, rc.txs))
  {
    assert ParentMissing(c, tx) == ParentMissing(e, tx);
    if ParentMissing(c, tx) {
      ParkSame(c.parents, e.parents, ParentOf(tx.payload).value, tx, c.clock, c.ticks);
    } else {
      OwnMatches(c, e, tx);
      ParentDepFree(c, tx);
      ParentDepFree(e, tx);
      OwnShape(c, tx);
      OwnShape(e, tx);
      var rc := ParentDep(c, tx);
      LearnAllGrew(c.parents.known, Hashes(rc.txs));
      LearnAllContent(e.parents.known, Hashes(rc.txs));
      HashesGain(rc.txs);
    }
  }

  lemma {:induction false} ParentDepsMatch(c: Pipeline, e: Pipeline, txs: seq<Tx>)
    requires Matches(c, e) && WellParked(c) && WellParked(e)
    requires forall i :: 0 <= i < |txs| ==> ParentOf(txs[i].payload).None?
    ensures var rc, re := ParentDeps(c, txs), ParentDeps(e, txs);
            && rc.txs == re.txs && Matches(rc.state, re.state)
            && Grew(c.parents.known, rc.state.parents.known, Gain(ByParent, rc.txs))
    decreases |txs|
  {
    if txs != [] {
      var c1, e1 := ParentDep(c, txs[0]), ParentDep(e, txs[0]);
      ParentDepMatches(c, e, txs[0]);
      ParentDepShape(c, txs[0]);
      ParentDepShape(e, txs[0]);
      ParentDepsMatch(c1.state, e1.state, txs[1..]);
      GainConcat(ByParent, c1.txs, ParentDeps(c1.state, txs[1..]).txs);
    }
  }

  /** Only the received transaction itself can ask about a parent. */
  lemma ParentStageMatches(c: Pipeline, e: Pipeline, txs: seq<Tx>)
    requires Matches(c, e) && WellParked(c) && WellParked(e)
    requires e.parents.known == Exact(c.parents.known.Content())
    requires txs == [] || AllRuns(txs[1..])
    ensures var rc, re := ParentDeps(c, txs), ParentDeps(e, txs);
            && rc.txs == re.txs && Matches(rc.state, re.state)
            && Grew(c.parents.known, rc.state.parents.known, Gain(ByParent, rc.txs))
  {
    if txs != [] {
      var c1, e1 := ParentDep(c, txs[0]), ParentDep(e, txs[0]);
      ParentDepMatches(c, e, txs[0]);
      ParentDepShape(c, txs[0]);
      ParentDepShape(e, txs[0]);
      ParentDepsMatch(c1.state, e1.state, txs[1..]);
      GainConcat(ByParent, c1.txs, ParentDeps(c1.state, txs[1..]).txs);
    }
  }

  /** The exact side learns exactly what it emits, both parents and programs. */
  lemma ExactGains(e: Pipeline, tx: Tx)
    requires WellParked(e) && e.programs.known.Exact? && e.parents.known.Exact?
    ensures var r := ValidateTxDep(e, tx);
            && r.state.parents.known == Exact(e.parents.known.all + Gain(ByParent, r.txs))
            && r.state.programs.known == Exact(e.programs.known.all + Provides(ByProgram, tx))
            && Gain(ByProgram, r.txs) == Provides(ByProgram, tx)
  {
    var p := ProgramDep(e, tx);
    ProgramDepShape(e, tx);
    ReleaseLearns(e, DeployPrograms(tx.payload));
    ParentDepsLearn(p.state, p.txs);
    ParentDepsShape(p.state, p.txs);
    ReleasedProvide(e, tx);
    ParentDepsGain(p.state, p.txs);
  }

  lemma {:induction false} ParentDepsGain(s: Pipeline, txs: seq<Tx>)
    requires WellParked(s)
    ensures Gain(ByProgram, ParentDeps(s, txs).txs) == Gain(ByProgram, txs)
    decreases |txs|
  {
    if txs != [] {
      var first := ParentDep(s, txs[0]);
      ParentDepShape(s, txs[0]);
      ParentDepGain(s, txs[0]);
      ParentDepsGain(first.state, txs[1..]);
      GainConcat(ByProgram, first.txs, ParentDeps(first.state, txs[1..]).txs);
    }
  }

  lemma ParentDepGain(s: Pipeline, tx: Tx)
    requires WellParked(s)
    ensures Gain(ByProgram, ParentDep(s, tx).txs) == Provides(ByProgram, tx)
  {
    if !ParentMissing(s, tx) {
      ParentDepFree(s, tx);
      OwnShape(s, tx);
      var own, children := Own(s, tx).txs, Waiters(s.parents.waiting, tx.hash);
      GainConcat(ByProgram, own, children);
      ChildrenProvideNothing(tx.hash, children);
    }
  }

  lemma ValidateMatches(c: Pipeline, e: Pipeline, tx: Tx)
    requires Simulates(c, e) && WellParked(c) && WellParked(e) && c.programs.known.capacity >= 2
    ensures var rc, re := ValidateTxDep(c, tx), ValidateTxDep(e, tx);
            && rc.txs == re.txs && Matches(rc.state, re.state)
            && Grew(c.parents.known, rc.state.parents.known, Gain(ByParent, rc.txs))
            && Grew(c.programs.known, rc.state.programs.known, Provides(ByProgram, tx))
  {
    var c1, e1 := ProgramDep(c, tx), ProgramDep(e, tx);
    ProgramDepMatches(c, e, tx);
    ProgramDepShape(c, tx);
    ProgramDepShape(e, tx);
    ParentStageMatches(c1.state, e1.state, c1.txs);
    ParentDepsShape(c1.state, c1.txs);
  }

  lemma SaveSettles(a: Known, b: Known, hs: set<Hash>)
    requires Settled(a) && Grew(a, b, hs)
    ensures Settled(b.Save(hs)) && b.Save(hs).Content() == a.Content() + hs
  {
  }

  lemma HandleEventSimulates(c: Pipeline, e: Pipeline, ev: Event)
    requires Simulates(c, e) && WellParked(c) && WellParked(e) && c.programs.known.capacity >= 2
    requires ev.failedSaves == {}
    ensures var rc, re := HandleEvent(c, ev), HandleEvent(e, ev);
            && rc.txs == re.txs && Simulates(rc.state, re.state)
            && rc.state.programs.known.capacity == c.programs.known.capacity
  {
    var rc, re := ValidateTxDep(c, ev.tx), ValidateTxDep(e, ev.tx);
    ValidateMatches(c, e, ev.tx);
    ExactGains(e, ev.tx);
    SavedWithin(rc.txs, {});
    SaveSettles(c.programs.known, rc.state.programs.known, Gain(ByProgram, rc.txs));
    SaveSettles(c.parents.known, rc.state.parents.known, Gain(ByParent, rc.txs));
    SaveExact(re.state.parents.known.all, Gain(ByParent, rc.txs));
    SaveExact(re.state.programs.known.all, Gain(ByProgram, rc.txs));
  }

  ghost predicate AllSaved(evs: seq<Event>) {
    forall i :: 0 <= i < |evs| ==> evs[i].failedSaves == {}
  }

  /** Cache refinement over every run: same output, same waiting maps, same evictions. */
  lemma {:induction false} CacheRefinesSet(c: Pipeline, e: Pipeline, evs: seq<Event>)
    requires Simulates(c, e) && WellParked(c) && WellParked(e) && c.programs.known.capacity >= 2
    requires AllSaved(evs)
    ensures var rc, re := HandleEvents(c, evs), HandleEvents(e, evs);
            && rc.txs == re.txs && Simulates(rc.state, re.state)
            && rc.state.programs.known.capacity == c.programs.known.capacity
  {
    if evs != [] {
      var c1, e1 := HandleEvents(c, DropLast(evs)).state, HandleEvents(e, DropLast(evs)).state;
      CacheRefinesSet(c, e, DropLast(evs));
      AlwaysWellParked(c, DropLast(evs));
      AlwaysWellParked(e, DropLast(evs));
      HandleEventSimulates(c1, e1, Last(evs));
    }
  }
}
