/** In which order transactions leave the pipeline, and who is never left waiting. */
module AdmissionOrder {
  import opened Basics
  import opened Transactions
  import opened AdmissionModel
  import opened AdmissionShape

  /** The two dependencies: Runs on deployed programs, children on their parent. */
  datatype Dep = ByProgram | ByParent

  function Needs(dep: Dep, tx: Tx): set<Hash> {
    match dep
    case ByProgram => Elems(RunPrograms(tx.payload))
    case ByParent => if ParentOf(tx.payload).Some? then {ParentOf(tx.payload).value} else {}
  }

  function Provides(dep: Dep, tx: Tx): set<Hash> {
    match dep
    case ByProgram => Elems(DeployPrograms(tx.payload))
    case ByParent => {tx.hash}
  }

  function Gain(dep: Dep, log: seq<Tx>): set<Hash> {
    if log == [] then {} else Provides(dep, log[0]) + Gain(dep, log[1..])
  }

  /** Starting from `known`, everything is there before it is needed. */
  ghost predicate Ordered(dep: Dep, known: set<Hash>, log: seq<Tx>)
    decreases |log|
  {
    log == [] || (Needs(dep, log[0]) <= known && Ordered(dep, known + Provides(dep, log[0]), log[1..]))
  }

  /** The same, position by position: each need was known at the start or is
      provided strictly earlier in the log. */
  ghost predicate EarlierInLog(dep: Dep, known: set<Hash>, log: seq<Tx>) {
    forall k, h :: 0 <= k < |log| && h in Needs(dep, log[k]) ==>
      h in known || exists j :: 0 <= j < k && h in Provides(dep, log[j])
  }

  lemma {:induction false} GainHas(dep: Dep, log: seq<Tx>, h: Hash)
    ensures h in Gain(dep, log) <==> exists j :: 0 <= j < |log| && h in Provides(dep, log[j])
  {
    if log != [] {
      GainHas(dep, log[1..], h);
      if j :| 0 <= j < |log| && h in Provides(dep, log[j]) {
        assert j == 0 || log[1..][j - 1] == log[j];
      }
      if j :| 0 <= j < |log[1..]| && h in Provides(dep, log[1..][j]) {
        assert log[j + 1] == log[1..][j];
      }
    }
  }

  lemma {:induction false} GainConcat(dep: Dep, a: seq<Tx>, b: seq<Tx>)
    ensures Gain(dep, a + b) == Gain(dep, a) + Gain(dep, b)
    decreases |a|
  {
    if a == [] {
      assert a + b == b;
    } else {
      assert (a + b)[1..] == a[1..] + b;
      GainConcat(dep, a[1..], b);
    }
  }

  lemma {:induction false} OrderedConcat(dep: Dep, known: set<Hash>, a: seq<Tx>, b: seq<Tx>)
    ensures Ordered(dep, known, a + b) <==> Ordered(dep, known, a) && Ordered(dep, known + Gain(dep, a), b)
    decreases |a|
  {
    if a == [] {
      assert a + b == b;
      assert known + Gain(dep, a) == known;
    } else {
      assert (a + b)[1..] == a[1..] + b;
      var known' := known + Provides(dep, a[0]);
      OrderedConcat(dep, known', a[1..], b);
      assert known' + Gain(dep, a[1..]) == known + Gain(dep, a);
    }
  }

  lemma {:induction false} OrderedMore(dep: Dep, known: set<Hash>, more: set<Hash>, log: seq<Tx>)
    requires Ordered(dep, known, log) && known <= more
    ensures Ordered(dep, more, log)
    decreases |log|
  {
    if log != [] {
      OrderedMore(dep, known + Provides(dep, log[0]), more + Provides(dep, log[0]), log[1..]);
    }
  }

  /** The recursive and the positional reading of an ordered log agree. */
  lemma {:induction false} OrderedMeans(dep: Dep, known: set<Hash>, log: seq<Tx>)
    ensures Ordered(dep, known, log) <==> EarlierInLog(dep, known, log)
    decreases |log|
  {
    if log != [] {
      var init := DropLast(log);
      assert log == init + [Last(log)];
      OrderedConcat(dep, known, init, [Last(log)]);
      OrderedMeans(dep, known, init);
      forall h { GainHas(dep, init, h); }
      assert Ordered(dep, known + Gain(dep, init), [Last(log)]) <==> Needs(dep, Last(log)) <= known + Gain(dep, init);
      if EarlierInLog(dep, known, init) && Needs(dep, Last(log)) <= known + Gain(dep, init) {
        EarlierExtends(dep, known, init, Last(log));
      }
      if EarlierInLog(dep, known, log) {
        EarlierRestricts(dep, known, log);
      }
    }
  }

  lemma EarlierExtends(dep: Dep, known: set<Hash>, init: seq<Tx>, tx: Tx)
    requires EarlierInLog(dep, known, init) && Needs(dep, tx) <= known + Gain(dep, init)
    ensures EarlierInLog(dep, known, init + [tx])
  {
    var log := init + [tx];
    forall k, h | 0 <= k < |log| && h in Needs(dep, log[k]) && h !in known
      ensures exists j :: 0 <= j < k && h in Provides(dep, log[j])
    {
      GainHas(dep, init, h);
      var j :| 0 <= j < k && h in Provides(dep, init[j]);
      assert log[j] == init[j];
    }
  }

  lemma EarlierRestricts(dep: Dep, known: set<Hash>, log: seq<Tx>)
    requires log != [] && EarlierInLog(dep, known, log)
    ensures EarlierInLog(dep, known, DropLast(log))
    ensures Needs(dep, Last(log)) <= known + Gain(dep, DropLast(log))
  {
    var init := DropLast(log);
    forall k, h | 0 <= k < |init| && h in Needs(dep, init[k]) && h !in known
      ensures exists j :: 0 <= j < k && h in Provides(dep, init[j])
    {
      assert init[k] == log[k];
      var j :| 0 <= j < k && h in Provides(dep, log[j]);
      assert init[j] == log[j];
    }
    forall h | h in Needs(dep, Last(log)) && h !in known ensures h in Gain(dep, init) {
      var j :| 0 <= j < |log| - 1 && h in Provides(dep, log[j]);
      assert init[j] == log[j];
      GainHas(dep, init, h);
    }
  }

  // ---------------------------------------------------------------- what is learnt

  lemma {:induction false} WithoutElems(recent: seq<Hash>, h: Hash)
    ensures Elems(Without(recent, h)) == Elems(recent) - {h}
  {
    if recent != [] {
      WithoutElems(recent[1..], h);
      assert recent == [recent[0]] + recent[1..];
      ElemsConcat([recent[0]], recent[1..]);
      ElemsConcat([recent[0]], Without(recent[1..], h));
    }
  }

  lemma LearnContent(known: Known, h: Hash)
    ensures known.Learn(h).Content() <= known.Content() + {h}
    ensures h in known.Learn(h).Content()
    ensures known.Exact? ==> known.Learn(h) == Exact(known.all + {h})
  {
    if known.Cached? {
      WithoutElems(known.recent, h);
      ElemsConcat(Without(known.recent, h), [h]);
    }
  }

  lemma {:induction false} LearnAllContent(known: Known, hs: seq<Hash>)
    ensures known.LearnAll(hs).Content() <= known.Content() + Elems(hs)
    ensures known.Exact? ==> known.LearnAll(hs) == Exact(known.all + Elems(hs))
    decreases |hs|
  {
    if hs != [] {
      LearnContent(known, hs[0]);
      LearnAllContent(known.Learn(hs[0]), hs[1..]);
      assert hs == [hs[0]] + hs[1..];
    }
  }

  lemma {:induction false} ReleaseLearns(s: Pipeline, ps: seq<Hash>)
    ensures var r := Release(s, ps);
            && r.state.programs.known.Content() <= s.programs.known.Content() + Elems(ps)
            && (s.programs.known.Exact? ==> r.state.programs.known == Exact(s.programs.known.all + Elems(ps)))
    decreases |ps|
  {
    if ps != [] {
      LearnContent(s.programs.known, ps[0]);
      ReleaseLearns(ReleaseOne(s, ps[0]), ps[1..]);
      assert ps == [ps[0]] + ps[1..];
    }
  }

  lemma {:induction false} HashesGain(txs: seq<Tx>)
    ensures Elems(Hashes(txs)) == Gain(ByParent, txs)
  {
    if txs != [] {
      HashesGain(txs[1..]);
      assert Hashes(txs) == [txs[0].hash] + Hashes(txs[1..]);
    }
  }

  lemma {:induction false} SavedWithin(txs: seq<Tx>, failed: set<nat>)
    ensures SavedHashes(txs, failed) <= Gain(ByParent, txs)
    ensures SavedPrograms(txs, failed) <= Gain(ByProgram, txs)
    ensures failed == {} ==> SavedHashes(txs, failed) == Gain(ByParent, txs)
    ensures failed == {} ==> SavedPrograms(txs, failed) == Gain(ByProgram, txs)
    decreases |txs|
  {
    if txs != [] {
      SavedWithin(DropLast(txs), failed);
      assert txs == DropLast(txs) + [Last(txs)];
      GainConcat(ByParent, DropLast(txs), [Last(txs)]);
      GainConcat(ByProgram, DropLast(txs), [Last(txs)]);
    }
  }

  // ---------------------------------------------------------------- Deploy before Run

  lemma {:induction false} NoRunsOrdered(known: set<Hash>, txs: seq<Tx>)
    requires NoRuns(txs)
    ensures Ordered(ByProgram, known, txs)
    decreases |txs|
  {
    if txs != [] {
      NoRunsOrdered(known + Provides(ByProgram, txs[0]), txs[1..]);
    }
  }

  lemma ParentDepRuns(s: Pipeline, tx: Tx, known: set<Hash>)
    requires WellParked(s)
    requires !tx.payload.Run? || s.programs.known.Content() <= known
    ensures var r := ParentDep(s, tx);
            && Ordered(ByProgram, known, r.txs)
            && (tx.payload.Deploy? ==> Provides(ByProgram, tx) <= Gain(ByProgram, r.txs))
  {
    if !ParentMissing(s, tx) {
      ParentDepFree(s, tx);
      OwnShape(s, tx);
      FirstUnknownFinds(s.programs.known, RunPrograms(tx.payload));
      var own, children := Own(s, tx).txs, Waiters(s.parents.waiting, tx.hash);
      OrderedConcat(ByProgram, known, own, children);
      NoRunsOrdered(known + Gain(ByProgram, own), children);
      GainConcat(ByProgram, own, children);
    }
  }

  lemma {:induction false} ParentDepsRuns(s: Pipeline, txs: seq<Tx>, known: set<Hash>)
    requires WellParked(s) && s.programs.known.Content() <= known
    ensures Ordered(ByProgram, known, ParentDeps(s, txs).txs)
    decreases |txs|
  {
    if txs != [] {
      var first := ParentDep(s, txs[0]);
      ParentDepShape(s, txs[0]);
      ParentDepRuns(s, txs[0], known);
      ParentDepsRuns(first.state, txs[1..], known + Gain(ByProgram, first.txs));
      OrderedConcat(ByProgram, known, first.txs, ParentDeps(first.state, txs[1..]).txs);
    }
  }

  /** A Deploy that goes through comes first in what it releases. */
  lemma DeployRuns(s: Pipeline, tx: Tx, known: set<Hash>)
    requires WellParked(s) && tx.payload.Deploy? && s.programs.known.Content() <= known
    ensures var r := ValidateTxDep(s, tx);
            && Ordered(ByProgram, known, r.txs)
            && r.state.programs.known.Content() <= known + Gain(ByProgram, r.txs)
  {
    var p := ProgramDep(s, tx);
    ProgramDepShape(s, tx);
    ReleaseLearns(s, DeployPrograms(tx.payload));
    var first := ParentDep(p.state, tx);
    ParentDepShape(p.state, tx);
    ParentDepRuns(p.state, tx, known);
    var rest := ParentDeps(first.state, p.txs[1..]);
    ParentDepsRuns(first.state, p.txs[1..], known + Gain(ByProgram, first.txs));
    ParentDepsShape(first.state, p.txs[1..]);
    OrderedConcat(ByProgram, known, first.txs, rest.txs);
    GainConcat(ByProgram, first.txs, rest.txs);
  }

  lemma ValidateRuns(s: Pipeline, tx: Tx, known: set<Hash>)
    requires WellParked(s) && s.programs.known.Content() <= known
    ensures var r := ValidateTxDep(s, tx);
            && Ordered(ByProgram, known, r.txs)
            && r.state.programs.known.Content() <= known + Gain(ByProgram, r.txs)
  {
    if tx.payload.Deploy? {
      DeployRuns(s, tx, known);
    } else {
      var p := ProgramDep(s, tx);
      ProgramDepShape(s, tx);
      ParentDepsRuns(p.state, p.txs, known);
      ParentDepsShape(p.state, p.txs);
    }
  }

  /** Deploy before Run, for every run, capacity and pattern of failing saves. */
  lemma {:induction false} DeployBeforeRun(s: Pipeline, evs: seq<Event>)
    requires WellParked(s)
    ensures var r := HandleEvents(s, evs);
            && Ordered(ByProgram, s.programs.known.Content(), r.txs)
            && r.state.programs.known.Content() <= s.programs.known.Content() + Gain(ByProgram, r.txs)
  {
    if evs != [] {
      var before := HandleEvents(s, DropLast(evs));
      DeployBeforeRun(s, DropLast(evs));
      AlwaysWellParked(s, DropLast(evs));
      var base := s.programs.known.Content();
      var mid := base + Gain(ByProgram, before.txs);
      ValidateRuns(before.state, Last(evs).tx, mid);
      var r := ValidateTxDep(before.state, Last(evs).tx);
      SavedWithin(r.txs, Last(evs).failedSaves);
      OrderedConcat(ByProgram, base, before.txs, r.txs);
      GainConcat(ByProgram, before.txs, r.txs);
    }
  }

  /** Each program of an emitted Run was stored at the start or belongs to a Deploy
      emitted strictly earlier. */
  lemma EveryRunFindsItsPrograms(s: Pipeline, evs: seq<Event>)
    requires Fresh(s)
    ensures EarlierInLog(ByProgram, s.programs.known.Content(), HandleEvents(s, evs).txs)
  {
    DeployBeforeRun(s, evs);
    OrderedMeans(ByProgram, s.programs.known.Content(), HandleEvents(s, evs).txs);
  }

  // ---------------------------------------------------------------- parent before child

  /** The one way to emit a child without its parent: a Run that comes free while
      another of its programs is missing goes back to waiting, after its children
      have been taken out. No harm is done if the Run itself is in `known`: there
      already at the start, or emitted before. */
  ghost predicate Strays(s: Pipeline, tx: Tx, known: set<Hash>) {
    && tx.payload.Run?
    && FirstUnknown(s.programs.known, RunPrograms(tx.payload)).Some?
    && Waiters(s.parents.waiting, tx.hash) != []
    && tx.hash !in known
  }

  ghost predicate NoneStray(s: Pipeline, txs: seq<Tx>, known: set<Hash>)
    decreases |txs|
  {
    txs == [] ||
    (!Strays(s, txs[0], known) &&
     var r := ParentDep(s, txs[0]);
     NoneStray(r.state, txs[1..], known + Gain(ByParent, r.txs)))
  }

  ghost predicate NoneStrayInRun(s: Pipeline, evs: seq<Event>, known: set<Hash>) {
    evs == [] ||
    (NoneStrayInRun(s, DropLast(evs), known) &&
     var before := HandleEvents(s, DropLast(evs));
     NoneStrayIn(before.state, Last(evs).tx, known + Gain(ByParent, before.txs)))
  }

  ghost predicate NoneStrayIn(s: Pipeline, tx: Tx, known: set<Hash>) {
    var r := ProgramDep(s, tx);
    NoneStray(r.state, r.txs, known)
  }

  lemma {:induction false} ChildrenOrdered(parent: Hash, known: set<Hash>, children: seq<Tx>)
    requires ChildrenOf(parent, children)
    ensures Ordered(ByParent, known, children) <==> children == [] || parent in known
    decreases |children|
  {
    if children != [] {
      ChildrenOrdered(parent, known + Provides(ByParent, children[0]), children[1..]);
    }
  }

  lemma OwnOrdered(s: Pipeline, tx: Tx, known: set<Hash>)
    requires WellParked(s) && s.parents.known.Content() <= known && !ParentMissing(s, tx)
    ensures Ordered(ByParent, known, Own(s, tx).txs)
    ensures Own(s, tx).txs != [] ==> Gain(ByParent, Own(s, tx).txs) == {tx.hash}
  {
    OwnShape(s, tx);
  }

  /** One parent check is in order exactly when it does not stray. */
  lemma ParentDepOrder(s: Pipeline, tx: Tx, known: set<Hash>)
    requires WellParked(s) && s.parents.known.Content() <= known
    ensures Ordered(ByParent, known, ParentDep(s, tx).txs) <==> !Strays(s, tx, known)
  {
    if !ParentMissing(s, tx) {
      var own, children := Own(s, tx).txs, Waiters(s.parents.waiting, tx.hash);
      ParentDepFree(s, tx);
      OwnShape(s, tx);
      OwnOrdered(s, tx, known);
      OrderedConcat(ByParent, known, own, children);
      ChildrenOrdered(tx.hash, known + Gain(ByParent, own), children);
    }
  }

  /** Whatever a parent check remembers it also emits. */
  lemma ParentDepContent(s: Pipeline, tx: Tx)
    requires WellParked(s)
    ensures var r := ParentDep(s, tx);
            r.state.parents.known.Content() <= s.parents.known.Content() + Gain(ByParent, r.txs)
  {
    if !ParentMissing(s, tx) {
      var r := ParentDep(s, tx);
      ParentDepFree(s, tx);
      LearnAllContent(s.parents.known, Hashes(r.txs));
      HashesGain(r.txs);
    }
  }

  lemma {:induction false} ParentDepsOrder(s: Pipeline, txs: seq<Tx>, known: set<Hash>)
    requires WellParked(s) && s.parents.known.Content() <= known
    ensures var r := ParentDeps(s, txs);
            && (Ordered(ByParent, known, r.txs) <==> NoneStray(s, txs, known))
            && r.state.parents.known.Content() <= known + Gain(ByParent, r.txs)
    decreases |txs|
  {
    if txs != [] {
      var first := ParentDep(s, txs[0]);
      var rest := ParentDeps(first.state, txs[1..]);
      var known' := known + Gain(ByParent, first.txs);
      ParentDepShape(s, txs[0]);
      ParentDepContent(s, txs[0]);
      ParentDepOrder(s, txs[0], known);
      ParentDepsOrder(first.state, txs[1..], known');
      OrderedConcat(ByParent, known, first.txs, rest.txs);
      GainConcat(ByParent, first.txs, rest.txs);
    }
  }

  lemma HandleEventOrder(s: Pipeline, ev: Event, known: set<Hash>)
    requires WellParked(s) && s.parents.known.Content() <= known
    ensures var r := HandleEvent(s, ev);
            && (Ordered(ByParent, known, r.txs) <==> NoneStrayIn(s, ev.tx, known))
            && r.state.parents.known.Content() <= known + Gain(ByParent, r.txs)
  {
    var p := ProgramDep(s, ev.tx);
    ProgramDepShape(s, ev.tx);
    ParentDepsOrder(p.state, p.txs, known);
    SavedWithin(ParentDeps(p.state, p.txs).txs, ev.failedSaves);
  }

  /** Parents leave before their children in exactly the runs where no Run strays:
      for every capacity and every pattern of failing saves, and for any `known` that
      holds at least what the pipeline knows at the start. */
  lemma {:induction false} ParentBeforeChildIff(s: Pipeline, evs: seq<Event>, known: set<Hash>)
    requires WellParked(s) && s.parents.known.Content() <= known
    ensures var r := HandleEvents(s, evs);
            && (Ordered(ByParent, known, r.txs) <==> NoneStrayInRun(s, evs, known))
            && r.state.parents.known.Content() <= known + Gain(ByParent, r.txs)
  {
    if evs != [] {
      var before := HandleEvents(s, DropLast(evs));
      var r := HandleEvent(before.state, Last(evs));
      ParentBeforeChildIff(s, DropLast(evs), known);
      AlwaysWellParked(s, DropLast(evs));
      HandleEventOrder(before.state, Last(evs), known + Gain(ByParent, before.txs));
      OrderedConcat(ByParent, known, before.txs, r.txs);
      GainConcat(ByParent, before.txs, r.txs);
    }
  }

  // ---------------------------------------------------------------- exactly known parents

  /** The exact set of known parents grows by exactly what is emitted. */
  lemma ParentDepLearns(s: Pipeline, tx: Tx)
    requires WellParked(s) && s.parents.known.Exact?
    ensures var r := ParentDep(s, tx);
            r.state.parents.known == Exact(s.parents.known.all + Gain(ByParent, r.txs))
  {
    if !ParentMissing(s, tx) {
      var r := ParentDep(s, tx);
      ParentDepFree(s, tx);
      LearnAllContent(s.parents.known, Hashes(r.txs));
      HashesGain(r.txs);
    }
  }

  lemma {:induction false} ParentDepsLearn(s: Pipeline, txs: seq<Tx>)
    requires WellParked(s) && s.parents.known.Exact?
    ensures var r := ParentDeps(s, txs);
            r.state.parents.known == Exact(s.parents.known.all + Gain(ByParent, r.txs))
    decreases |txs|
  {
    if txs != [] {
      var first := ParentDep(s, txs[0]);
      ParentDepShape(s, txs[0]);
      ParentDepLearns(s, txs[0]);
      ParentDepsLearn(first.state, txs[1..]);
      GainConcat(ByParent, first.txs, ParentDeps(first.state, txs[1..]).txs);
    }
  }

  lemma SaveExact(all: set<Hash>, hs: set<Hash>)
    requires hs <= all
    ensures Exact(all).Save(hs) == Exact(all)
  {
  }

  lemma HandleEventLearns(s: Pipeline, ev: Event)
    requires WellParked(s) && s.parents.known.Exact?
    ensures var r := HandleEvent(s, ev);
            r.state.parents.known == Exact(s.parents.known.all + Gain(ByParent, r.txs))
  {
    var p := ProgramDep(s, ev.tx);
    ProgramDepShape(s, ev.tx);
    ParentDepsLearn(p.state, p.txs);
    var r := ParentDeps(p.state, p.txs);
    SavedWithin(r.txs, ev.failedSaves);
    SaveExact(s.parents.known.all + Gain(ByParent, r.txs), SavedHashes(r.txs, ev.failedSaves));
  }

  lemma {:induction false} ParentsExactly(s: Pipeline, evs: seq<Event>)
    requires WellParked(s) && s.parents.known.Exact?
    ensures var r := HandleEvents(s, evs);
            r.state.parents.known == Exact(s.parents.known.all + Gain(ByParent, r.txs))
  {
    if evs != [] {
      var before := HandleEvents(s, DropLast(evs));
      ParentsExactly(s, DropLast(evs));
      AlwaysWellParked(s, DropLast(evs));
      HandleEventLearns(before.state, Last(evs));
      GainConcat(ByParent, before.txs, HandleEvent(before.state, Last(evs)).txs);
    }
  }

  // ---------------------------------------------------------------- who is left waiting for a known parent

  /** The children that go out with `tx`. Their own children are not looked at. */
  ghost function Adopted(s: Pipeline, tx: Tx): set<Hash> {
    if ParentMissing(s, tx) then {} else Elems(Hashes(Waiters(s.parents.waiting, tx.hash)))
  }

  ghost function AdoptedIn(s: Pipeline, txs: seq<Tx>): set<Hash>
    decreases |txs|
  {
    if txs == [] then {} else Adopted(s, txs[0]) + AdoptedIn(ParentDep(s, txs[0]).state, txs[1..])
  }

  ghost function AdoptedBy(s: Pipeline, tx: Tx): set<Hash> {
    var r := ProgramDep(s, tx);
    AdoptedIn(r.state, r.txs)
  }

  /** All transactions of a run that left with their parent and not by themselves. */
  ghost function AdoptedInRun(s: Pipeline, evs: seq<Event>): set<Hash> {
    if evs == [] then {}
    else AdoptedInRun(s, DropLast(evs)) + AdoptedBy(HandleEvents(s, DropLast(evs)).state, Last(evs).tx)
  }

  /** Whoever waits for a known parent waits for one of `adopted`. */
  ghost predicate OverdueOnly(s: Pipeline, adopted: set<Hash>) {
    s.parents.known.Exact? && s.parents.waiting.Keys * s.parents.known.all <= adopted
  }

  lemma ParentDepOverdue(s: Pipeline, tx: Tx, adopted: set<Hash>)
    requires WellParked(s) && OverdueOnly(s, adopted)
    ensures var r := ParentDep(s, tx);
            OverdueOnly(r.state, adopted + Adopted(s, tx)) && Adopted(s, tx) <= Gain(ByParent, r.txs)
  {
    ParentDepLearns(s, tx);
    if !ParentMissing(s, tx) {
      var own, children := Own(s, tx).txs, Waiters(s.parents.waiting, tx.hash);
      ParentDepFree(s, tx);
      OwnShape(s, tx);
      GainConcat(ByParent, own, children);
      HashesGain(children);
    }
  }

  lemma {:induction false} ParentDepsOverdue(s: Pipeline, txs: seq<Tx>, adopted: set<Hash>)
    requires WellParked(s) && OverdueOnly(s, adopted)
    ensures var r := ParentDeps(s, txs);
            OverdueOnly(r.state, adopted + AdoptedIn(s, txs)) && AdoptedIn(s, txs) <= Gain(ByParent, r.txs)
    decreases |txs|
  {
    if txs != [] {
      var first := ParentDep(s, txs[0]);
      var rest := ParentDeps(first.state, txs[1..]);
      ParentDepShape(s, txs[0]);
      ParentDepOverdue(s, txs[0], adopted);
      ParentDepsOverdue(first.state, txs[1..], adopted + Adopted(s, txs[0]));
      GainConcat(ByParent, first.txs, rest.txs);
    }
  }

  lemma HandleEventOverdue(s: Pipeline, ev: Event, adopted: set<Hash>)
    requires WellParked(s) && OverdueOnly(s, adopted)
    ensures var r := HandleEvent(s, ev);
            && OverdueOnly(r.state, adopted + AdoptedBy(s, ev.tx))
            && AdoptedBy(s, ev.tx) <= Gain(ByParent, r.txs)
  {
    var p := ProgramDep(s, ev.tx);
    var r := ParentDeps(p.state, p.txs);
    ProgramDepShape(s, ev.tx);
    ParentDepsOverdue(p.state, p.txs, adopted);
    ParentDepsLearn(p.state, p.txs);
    SavedWithin(r.txs, ev.failedSaves);
    SaveExact(r.state.parents.known.all, SavedHashes(r.txs, ev.failedSaves));
  }

  lemma {:induction false} RunOverdue(s: Pipeline, evs: seq<Event>)
    requires WellParked(s) && OverdueOnly(s, {})
    ensures var r := HandleEvents(s, evs);
            OverdueOnly(r.state, AdoptedInRun(s, evs)) && AdoptedInRun(s, evs) <= Gain(ByParent, r.txs)
  {
    if evs != [] {
      var before := HandleEvents(s, DropLast(evs));
      RunOverdue(s, DropLast(evs));
      AlwaysWellParked(s, DropLast(evs));
      HandleEventOverdue(before.state, Last(evs), AdoptedInRun(s, DropLast(evs)));
      GainConcat(ByParent, before.txs, HandleEvent(before.state, Last(evs)).txs);
    }
  }

  /** Who is left waiting for a parent that is known already: exactly those parked on a
      transaction that went out as the child of another. */
  lemma LeftWaitingIff(s: Pipeline, evs: seq<Event>, key: Hash)
    requires WellParked(s) && OverdueOnly(s, {})
    requires key in HandleEvents(s, evs).state.parents.waiting
    ensures HandleEvents(s, evs).state.parents.known.Has(key) <==> key in AdoptedInRun(s, evs)
  {
    RunOverdue(s, evs);
    ParentsExactly(s, evs);
  }

  // ---------------------------------------------------------------- no lost wake-up

  /** Nobody waits for a program that is already known. */
  ghost predicate NoneOverdue(s: Pipeline) {
    s.programs.known.Exact? && s.programs.waiting.Keys !! s.programs.known.all
  }

  lemma ProgramDepWakes(s: Pipeline, tx: Tx)
    requires WellParked(s) && NoneOverdue(s)
    ensures var r := ProgramDep(s, tx);
            && NoneOverdue(r.state)
            && r.state.programs.known == Exact(s.programs.known.all + Provides(ByProgram, tx))
  {
    FirstUnknownFinds(s.programs.known, RunPrograms(tx.payload));
    match FirstUnknown(s.programs.known, RunPrograms(tx.payload))
    case Some(p) =>
      assert Provides(ByProgram, tx) == {};
    case None =>
      ReleaseShape(s, DeployPrograms(tx.payload));
      ReleaseLearns(s, DeployPrograms(tx.payload));
  }

  lemma ParentDepWakes(s: Pipeline, tx: Tx)
    requires WellParked(s) && NoneOverdue(s)
    ensures var r := ParentDep(s, tx);
            && NoneOverdue(r.state)
            && Gain(ByProgram, r.txs) == if tx.payload.Deploy? then Provides(ByProgram, tx) else {}
  {
    if !ParentMissing(s, tx) {
      ParentDepFree(s, tx);
      OwnShape(s, tx);
      ProgramDepWakes(DropChildren(s, tx.hash), tx);
      var own, children := Own(s, tx).txs, Waiters(s.parents.waiting, tx.hash);
      GainConcat(ByProgram, own, children);
      ChildrenProvideNothing(tx.hash, children);
    }
  }

  lemma {:induction false} ChildrenProvideNothing(parent: Hash, children: seq<Tx>)
    requires ChildrenOf(parent, children)
    ensures Gain(ByProgram, children) == {}
  {
    if children != [] {
      ChildrenProvideNothing(parent, children[1..]);
    }
  }

  lemma {:induction false} ParentDepsWake(s: Pipeline, txs: seq<Tx>)
    requires WellParked(s) && NoneOverdue(s)
    ensures var r := ParentDeps(s, txs);
            && NoneOverdue(r.state)
            && Gain(ByProgram, r.txs) == Gain(ByProgram, txs)
    decreases |txs|
  {
    if txs != [] {
      var first := ParentDep(s, txs[0]);
      ParentDepShape(s, txs[0]);
      ParentDepWakes(s, txs[0]);
      ParentDepsWake(first.state, txs[1..]);
      GainConcat(ByProgram, first.txs, ParentDeps(first.state, txs[1..]).txs);
    }
  }

  lemma {:induction false} RunsProvideNothing(txs: seq<Tx>)
    requires AllRuns(txs)
    ensures Gain(ByProgram, txs) == {}
  {
    if txs != [] {
      RunsProvideNothing(txs[1..]);
    }
  }

  lemma ReleasedProvide(s: Pipeline, tx: Tx)
    requires WellParked(s)
    ensures Gain(ByProgram, ProgramDep(s, tx).txs) == Provides(ByProgram, tx)
  {
    var p := ProgramDep(s, tx);
    ProgramDepShape(s, tx);
    if p.txs != [] {
      RunsProvideNothing(p.txs[1..]);
    }
  }

  lemma HandleEventWakes(s: Pipeline, ev: Event)
    requires WellParked(s) && NoneOverdue(s)
    ensures var r := HandleEvent(s, ev);
            && NoneOverdue(r.state)
            && r.state.programs.known == Exact(s.programs.known.all + Gain(ByProgram, r.txs))
  {
    var p := ProgramDep(s, ev.tx);
    ProgramDepShape(s, ev.tx);
    ProgramDepWakes(s, ev.tx);
    ReleasedProvide(s, ev.tx);
    ParentDepsShape(p.state, p.txs);
    ParentDepsWake(p.state, p.txs);
    var r := ParentDeps(p.state, p.txs);
    SavedWithin(r.txs, ev.failedSaves);
    SaveExact(r.state.programs.known.all, SavedPrograms(r.txs, ev.failedSaves));
  }

  /** In every reachable state, no Run waits for a program that was stored at the
      start or that an emitted Deploy has provided. */
  lemma {:induction false} NoLostWakeUp(s: Pipeline, evs: seq<Event>)
    requires WellParked(s) && NoneOverdue(s)
    ensures var r := HandleEvents(s, evs);
            && NoneOverdue(r.state)
            && r.state.programs.known == Exact(s.programs.known.all + Gain(ByProgram, r.txs))
  {
    if evs != [] {
      var before := HandleEvents(s, DropLast(evs));
      NoLostWakeUp(s, DropLast(evs));
      AlwaysWellParked(s, DropLast(evs));
      HandleEventWakes(before.state, Last(evs));
      GainConcat(ByProgram, before.txs, HandleEvent(before.state, Last(evs)).txs);
    }
  }
}
