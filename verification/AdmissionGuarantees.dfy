/** What the running node can rely on: the order and wake-up theorems carried over
    to the cached pipeline, and the exact conditions under which they stop holding. */
module AdmissionGuarantees {
  import opened Basics
  import opened Transactions
  import opened AdmissionModel
  import opened AdmissionShape
  import opened AdmissionOrder
  import opened AdmissionRefinement

  /** The same pipeline with one unbounded set per kind of key and no cache. */
  ghost function Uncached(s: Pipeline): Pipeline {
    s.(programs := s.programs.(known := Exact(s.programs.known.Content())),
       parents := s.parents.(known := Exact(s.parents.known.Content())))
  }

  /** A node that starts up: empty caches over whatever storage holds. */
  ghost predicate StartsUp(s: Pipeline) {
    Fresh(s) && s.programs.known.Cached? && s.parents.known.Cached?
  }

  lemma StartSimulates(s: Pipeline)
    requires StartsUp(s)
    ensures Simulates(s, Uncached(s)) && WellParked(s) && WellParked(Uncached(s)) && NoneOverdue(Uncached(s))
  {
  }

  /** Cache refinement from start-up: outputs, waiting maps and evictions of every
      run are those of the uncached pipeline. */
  lemma CacheIsInvisible(s: Pipeline, evs: seq<Event>)
    requires StartsUp(s) && s.programs.known.capacity >= 2 && AllSaved(evs)
    ensures var r, u := HandleEvents(s, evs), HandleEvents(Uncached(s), evs);
            && r.txs == u.txs
            && SameParked(r.state.programs, u.state.programs)
            && SameParked(r.state.parents, u.state.parents)
            && u.state.programs.known == Exact(r.state.programs.known.Content())
            && u.state.parents.known == Exact(r.state.parents.known.Content())
            && Settled(r.state.programs.known) && Settled(r.state.parents.known)
  {
    StartSimulates(s);
    CacheRefinesSet(s, Uncached(s), evs);
  }

  /** No Run is left waiting for a program that storage held at start-up or that a
      Deploy among the emitted transactions provides. */
  lemma RunsAreWoken(s: Pipeline, evs: seq<Event>, key: Hash)
    requires StartsUp(s) && s.programs.known.capacity >= 2 && AllSaved(evs)
    requires key in HandleEvents(s, evs).state.programs.waiting
    ensures key !in s.programs.known.stored
    ensures forall j :: 0 <= j < |HandleEvents(s, evs).txs| ==>
              key !in DeployPrograms(HandleEvents(s, evs).txs[j].payload)
  {
    StartSimulates(s);
    CacheIsInvisible(s, evs);
    NoLostWakeUp(Uncached(s), evs);
    var txs := HandleEvents(s, evs).txs;
    GainHas(ByProgram, txs, key);
    forall j | 0 <= j < |txs| ensures key !in DeployPrograms(txs[j].payload) {
      assert key !in Provides(ByProgram, txs[j]);
    }
  }

  /** Children are emitted after their parents exactly when no Run strays, in every
      run: for every capacity and every pattern of failing saves. */
  lemma ParentsComeFirstIff(s: Pipeline, evs: seq<Event>)
    requires WellParked(s)
    ensures EarlierInLog(ByParent, s.parents.known.Content(), HandleEvents(s, evs).txs)
       <==> NoneStrayInRun(s, evs, s.parents.known.Content())
  {
    ParentBeforeChildIff(s, evs, s.parents.known.Content());
    OrderedMeans(ByParent, s.parents.known.Content(), HandleEvents(s, evs).txs);
  }

  /** Who is left waiting for a parent that was stored or emitted: exactly those parked
      on a transaction that went out as the child of another. */
  lemma ChildrenLeftWaitingIff(s: Pipeline, evs: seq<Event>, key: Hash)
    requires StartsUp(s) && s.programs.known.capacity >= 2 && AllSaved(evs)
    requires key in HandleEvents(s, evs).state.parents.waiting
    ensures key in s.parents.known.stored + Gain(ByParent, HandleEvents(s, evs).txs)
       <==> key in AdoptedInRun(Uncached(s), evs)
  {
    StartSimulates(s);
    CacheIsInvisible(s, evs);
    LeftWaitingIff(Uncached(s), evs, key);
    ParentsExactly(Uncached(s), evs);
  }

  // ---------------------------------------------------------------- only Runs stray

  ghost predicate Named(txs: seq<Tx>, names: set<Hash>) {
    forall i :: 0 <= i < |txs| && txs[i].payload.Run? ==> txs[i].hash in names
  }

  ghost predicate AllNamed(s: Pipeline, names: set<Hash>) {
    forall k :: k in s.programs.waiting ==> Named(s.programs.waiting[k].txs, names)
  }

  lemma {:induction false} ReleaseNamed(s: Pipeline, ps: seq<Hash>, names: set<Hash>)
    requires AllNamed(s, names)
    ensures AllNamed(Release(s, ps).state, names) && Named(Release(s, ps).txs, names)
    decreases |ps|
  {
    if ps != [] {
      ReleaseNamed(ReleaseOne(s, ps[0]), ps[1..], names);
    }
  }

  lemma ProgramDepNamed(s: Pipeline, tx: Tx, names: set<Hash>)
    requires AllNamed(s, names) && Named([tx], names)
    ensures AllNamed(ProgramDep(s, tx).state, names) && Named(ProgramDep(s, tx).txs, names)
  {
    assert tx.payload.Run? ==> tx.hash in names by {
      assert [tx][0] == tx;
    }
    match FirstUnknown(s.programs.known, RunPrograms(tx.payload))
    case Some(p) => ParkNamed(s, p, tx, names);
    case None => ReleaseNamed(s, DeployPrograms(tx.payload), names);
  }

  lemma ParkNamed(s: Pipeline, p: Hash, tx: Tx, names: set<Hash>)
    requires AllNamed(s, names) && (tx.payload.Run? ==> tx.hash in names)
    ensures AllNamed(ParkOnProgram(s, p, tx), names)
  {
    var c, w := Room(s.programs, s.clock, s.ticks), ParkOnProgram(s, p, tx).programs.waiting;
    forall k | k in w ensures Named(w[k].txs, names) {
      assert k in c.waiting ==> Named(c.waiting[k].txs, names);
    }
  }

  lemma ParentDepNamed(s: Pipeline, tx: Tx, names: set<Hash>)
    requires WellParked(s) && AllNamed(s, names) && Named([tx], names)
    ensures AllNamed(ParentDep(s, tx).state, names)
  {
    if !ParentMissing(s, tx) {
      ParentDepFree(s, tx);
      var s0 := DropChildren(s, tx.hash);
      assert AllNamed(s0, names);
      ProgramDepNamed(s0, tx, names);
    }
  }

  lemma {:induction false} ParentDepsNamed(s: Pipeline, txs: seq<Tx>, names: set<Hash>, known: set<Hash>)
    requires WellParked(s) && AllNamed(s, names) && Named(txs, names) && names <= known
    ensures AllNamed(ParentDeps(s, txs).state, names) && NoneStray(s, txs, known)
    decreases |txs|
  {
    if txs != [] {
      var first := ParentDep(s, txs[0]);
      assert Named([txs[0]], names);
      ParentDepShape(s, txs[0]);
      ParentDepNamed(s, txs[0], names);
      ParentDepsNamed(first.state, txs[1..], names, known + Gain(ByParent, first.txs));
    }
  }

  lemma HandleEventNamed(s: Pipeline, ev: Event, names: set<Hash>, known: set<Hash>)
    requires WellParked(s) && AllNamed(s, names) && Named([ev.tx], names) && names <= known
    ensures AllNamed(HandleEvent(s, ev).state, names) && NoneStrayIn(s, ev.tx, known)
  {
    var p := ProgramDep(s, ev.tx);
    ProgramDepShape(s, ev.tx);
    ProgramDepNamed(s, ev.tx, names);
    ParentDepsNamed(p.state, p.txs, names, known);
  }

  lemma {:induction false} NamedDoNotStray(s: Pipeline, evs: seq<Event>, names: set<Hash>, known: set<Hash>)
    requires WellParked(s) && AllNamed(s, names) && Named(Received(evs), names) && names <= known
    ensures AllNamed(HandleEvents(s, evs).state, names) && NoneStrayInRun(s, evs, known)
  {
    if evs != [] {
      var before := HandleEvents(s, DropLast(evs));
      NamedSplit(evs, names);
      NamedDoNotStray(s, DropLast(evs), names, known);
      AlwaysWellParked(s, DropLast(evs));
      HandleEventNamed(before.state, Last(evs), names, known + Gain(ByParent, before.txs));
    }
  }

  lemma NamedSplit(evs: seq<Event>, names: set<Hash>)
    requires evs != [] && Named(Received(evs), names)
    ensures Named(Received(DropLast(evs)), names) && Named([Last(evs).tx], names)
  {
    var all := Received(evs);
    assert all[|evs| - 1] == Last(evs).tx;
    forall i | 0 <= i < |evs| - 1 ensures Received(DropLast(evs))[i] == all[i] {
    }
  }

  /** In every run, for every capacity and every pattern of failing saves: an emitted
      child whose parent is not the hash of a waiting or received Run finds that parent
      known at the start or strictly earlier in the output. */
  lemma NonRunParentsComeFirst(s: Pipeline, evs: seq<Event>, names: set<Hash>)
    requires WellParked(s) && AllNamed(s, names) && Named(Received(evs), names)
    ensures EarlierInLog(ByParent, s.parents.known.Content() + names, HandleEvents(s, evs).txs)
  {
    var known := s.parents.known.Content() + names;
    NamedDoNotStray(s, evs, names, known);
    ParentBeforeChildIff(s, evs, known);
    OrderedMeans(ByParent, known, HandleEvents(s, evs).txs);
  }

  // ---------------------------------------------------------------- where they fail

  ghost function Start(programs: Known, parents: Known): Pipeline {
    Pipeline(Cache(map[], programs, NodeLimits, multiset{}), Cache(map[], parents, NodeLimits, multiset{}), n => 0, 0)
  }

  lemma StartIsUp(programs: Known, parents: Known)
    requires programs.Cached? && programs.recent == [] && parents.Cached? && parents.recent == []
    ensures StartsUp(Start(programs, parents))
  {
  }

  function RunOf(hash: Hash, p: Hash, q: Hash): Tx {
    Tx(hash, Run([WorkflowStep(p, [], []), WorkflowStep(q, [], [])]))
  }

  lemma RunOfPrograms(hash: Hash, p: Hash, q: Hash)
    ensures RunPrograms(RunOf(hash, p, q).payload) == [p, q]
  {
  }

  lemma OneEvent(s: Pipeline, a: Event)
    ensures HandleEvents(s, [a]) == HandleEvent(s, a)
  {
    assert DropLast([a]) == [];
    assert HandleEvents(s, []) == Outcome(s, []);
    assert [] + HandleEvent(s, a).txs == HandleEvent(s, a).txs;
  }

  lemma TwoEvents(s: Pipeline, a: Event, b: Event)
    ensures var r := HandleEvent(s, a);
            var q := HandleEvent(r.state, b);
            HandleEvents(s, [a, b]) == Outcome(q.state, r.txs + q.txs)
  {
    assert DropLast([a, b]) == [a];
    OneEvent(s, a);
  }

  /** Into an empty waiting map a Run goes on its first unknown program. */
  lemma RunParks(s: Pipeline, run: Tx, p: Hash)
    requires s.programs.waiting == map[] && s.programs.limits.maxWaiting > 0
    requires FirstUnknown(s.programs.known, RunPrograms(run.payload)) == Some(p)
    ensures ProgramDep(s, run) == Outcome(ParkOnProgram(s, p, run), [])
    ensures ParkOnProgram(s, p, run)
         == s.(programs := s.programs.(waiting := map[p := Entry([run], s.clock(s.ticks))]), ticks := s.ticks + 1)
  {
    assert !Full(s.programs);
    assert [] + [run] == [run];
  }

  lemma RunEventParks(s: Pipeline, run: Tx, p: Hash)
    requires s.programs.waiting == map[] && s.programs.limits.maxWaiting > 0
    requires FirstUnknown(s.programs.known, RunPrograms(run.payload)) == Some(p)
    requires s.programs.known.Cached? && s.parents.known.Cached?
    ensures HandleEvent(s, Event(run, {})) == Outcome(ParkOnProgram(s, p, run), [])
  {
    RunParks(s, run, p);
    SaveNothing(ParkOnProgram(s, p, run));
  }

  lemma SaveNothing(s: Pipeline)
    requires s.programs.known.Cached? && s.parents.known.Cached?
    ensures SaveTxs(s, [], {}) == s
  {
    assert s.programs.known.stored + {} == s.programs.known.stored;
    assert s.parents.known.stored + {} == s.parents.known.stored;
  }

  /** The state a Deploy of two programs leaves for the Run it releases: with one
      slot the second program has pushed out the first. */
  lemma OneSlotForgets(s: Pipeline, capacity: nat, run: Tx)
    requires capacity <= 1
    requires s.programs.waiting == map[1 := Entry([run], 0)] && s.programs.known == Cached(capacity, [], {})
    ensures var r := Release(s, [1, 2]);
            && r.txs == [run]
            && r.state == s.(programs := s.programs.(waiting := map[], known := Cached(capacity, [2], {})))
  {
    ReleaseTwice(s, 1, 2);
    assert Touch([], capacity, 1) == [1];
    assert Touch([1], capacity, 2) == [2];
    assert s.programs.waiting - {1} - {2} == map[];
    assert 2 !in s.programs.waiting - {1};
    assert [run] + [] == [run];
  }

  lemma TwoParentDeps(s: Pipeline, a: Tx, b: Tx)
    ensures var r := ParentDep(s, a);
            var q := ParentDep(r.state, b);
            ParentDeps(s, [a, b]) == Outcome(q.state, r.txs + q.txs)
  {
    var r := ParentDep(s, a);
    var q := ParentDep(r.state, b);
    assert [a, b][1..] == [b] && [b][1..] == [];
    assert ParentDeps(q.state, []) == Outcome(q.state, []);
    assert q.txs + [] == q.txs;
    assert ParentDeps(r.state, [b]) == q;
  }

  lemma PassesAlone(s: Pipeline, tx: Tx)
    requires WellParked(s) && s.parents.waiting == map[] && ParentOf(tx.payload).None? && !tx.payload.Run?
    ensures var r := ParentDep(s, tx);
            r.txs == [tx] && r.state.programs == s.programs && r.state.parents.waiting == map[]
  {
    ParentDepFree(s, tx);
    OwnShape(s, tx);
  }

  lemma GoesBack(s: Pipeline, run: Tx)
    requires WellParked(s) && s.parents.waiting == map[] && run.payload.Run?
    requires FirstUnknown(s.programs.known, RunPrograms(run.payload)) == Some(1)
    ensures var r := ParentDep(s, run);
            r.txs == [] && 1 in r.state.programs.waiting
  {
    ParentDepFree(s, run);
    OwnShape(s, run);
  }

  /** Both parent checks of such a Deploy: the Deploy goes out, the Run goes back. */
  lemma OneSlotParentStage(s: Pipeline, capacity: nat, run: Tx, deploy: Tx)
    requires run.payload.Run? && RunPrograms(run.payload) == [1, 2] && deploy.payload == Deploy(1, 2)
    requires s.programs.waiting == map[] && s.programs.known == Cached(capacity, [2], {}) && s.parents.waiting == map[]
    ensures var r := ParentDep(s, deploy);
            var q := ParentDep(r.state, run);
            r.txs == [deploy] && q.txs == [] && 1 in q.state.programs.waiting
  {
    PassesAlone(s, deploy);
    var r := ParentDep(s, deploy);
    assert FirstUnknown(s.programs.known, RunPrograms(run.payload)) == Some(1);
    assert WellParked(r.state);
    GoesBack(r.state, run);
  }

  lemma OneSlotDeploy(s: Pipeline, capacity: nat, run: Tx, deploy: Tx)
    requires capacity <= 1 && run.payload.Run? && RunPrograms(run.payload) == [1, 2] && deploy.payload == Deploy(1, 2)
    requires s.programs.waiting == map[1 := Entry([run], 0)] && s.programs.known == Cached(capacity, [], {})
    requires s.programs.limits.maxWaiting > 0 && s.parents.waiting == map[]
    ensures var r := HandleEvent(s, Event(deploy, {}));
            r.txs == [deploy] && 1 in r.state.programs.waiting
  {
    OneSlotForgets(s, capacity, run);
    var s1 := Release(s, [1, 2]).state;
    assert ProgramDep(s, deploy) == Outcome(s1, [deploy] + [run]) by {
      assert RunPrograms(deploy.payload) == [];
      assert FirstUnknown(s.programs.known, []) == None;
    }
    assert [deploy] + [run] == [deploy, run];
    TwoParentDeps(s1, deploy, run);
    OneSlotParentStage(s1, capacity, run, deploy);
  }

  /** The Deploy of programs 1 and 2 is all that came out, and a Run waits for 1. */
  ghost predicate LosesWakeUp(s: Pipeline, evs: seq<Event>) {
    var r := HandleEvents(s, evs);
    r.txs == [Tx(11, Deploy(1, 2))] && 1 in r.state.programs.waiting
  }

  /** With room for one program, a Run whose programs a Deploy provides is parked on the
      first of them again just before both are stored. There it stays until it is too
      old or that program is deployed once more. */
  lemma OneSlotLosesWakeUp(capacity: nat) returns (s: Pipeline, evs: seq<Event>)
    requires capacity <= 1
    ensures StartsUp(s) && s.programs.known.capacity == capacity && AllSaved(evs)
    ensures Receivable(evs) && LosesWakeUp(s, evs)
  {
    s := Start(Cached(capacity, [], {}), Cached(1, [], {}));
    var run, deploy := RunOf(10, 1, 2), Tx(11, Deploy(1, 2));
    evs := [Event(run, {}), Event(deploy, {})];
    StartIsUp(s.programs.known, s.parents.known);
    OneSlotReceivable(evs);
    OneSlotRun(s, capacity, run, deploy);
  }

  lemma OneSlotReceivable(evs: seq<Event>)
    requires evs == [Event(RunOf(10, 1, 2), {}), Event(Tx(11, Deploy(1, 2)), {})]
    ensures Receivable(evs) && AllSaved(evs)
  {
  }

  lemma OneSlotRun(s: Pipeline, capacity: nat, run: Tx, deploy: Tx)
    requires capacity <= 1 && run == RunOf(10, 1, 2) && deploy == Tx(11, Deploy(1, 2))
    requires s == Start(Cached(capacity, [], {}), Cached(1, [], {}))
    ensures LosesWakeUp(s, [Event(run, {}), Event(deploy, {})])
  {
    RunOfPrograms(10, 1, 2);
    assert FirstUnknown(s.programs.known, [1, 2]) == Some(1);
    RunEventParks(s, run, 1);
    RunParks(s, run, 1);
    TwoEvents(s, Event(run, {}), Event(deploy, {}));
    OneSlotDeploy(ParkOnProgram(s, 1, run), capacity, run, deploy);
  }

  /** Every run from start-up behaves like the uncached one. A cache has at least one
      slot; for `capacity` zero the list of recent keys behaves as for one. */
  ghost predicate Faithful(capacity: nat) {
    forall s: Pipeline, evs: seq<Event> ::
      StartsUp(s) && s.programs.known.capacity == capacity && AllSaved(evs) && Receivable(evs) ==>
        && HandleEvents(s, evs).txs == HandleEvents(Uncached(s), evs).txs
        && HandleEvents(s, evs).state.programs.waiting == HandleEvents(Uncached(s), evs).state.programs.waiting
  }

  /** The cache is invisible exactly from two program slots on. */
  lemma FaithfulIffTwoSlots(capacity: nat)
    ensures Faithful(capacity) <==> capacity >= 2
  {
    if capacity >= 2 {
      forall s: Pipeline, evs: seq<Event>
        | StartsUp(s) && s.programs.known.capacity == capacity && AllSaved(evs) && Receivable(evs)
        ensures HandleEvents(s, evs).txs == HandleEvents(Uncached(s), evs).txs
        ensures HandleEvents(s, evs).state.programs.waiting == HandleEvents(Uncached(s), evs).state.programs.waiting
      {
        CacheIsInvisible(s, evs);
      }
    } else {
      var s, evs := OneSlotLosesWakeUp(capacity);
      OneSlotDiffers(s, evs);
    }
  }

  /** The uncached pipeline would not leave that Run waiting. */
  lemma OneSlotDiffers(s: Pipeline, evs: seq<Event>)
    requires StartsUp(s) && LosesWakeUp(s, evs)
    ensures HandleEvents(Uncached(s), evs).txs != HandleEvents(s, evs).txs
         || HandleEvents(Uncached(s), evs).state.programs.waiting != HandleEvents(s, evs).state.programs.waiting
  {
    StartSimulates(s);
    NoLostWakeUp(Uncached(s), evs);
    var txs := [Tx(11, Deploy(1, 2))];
    assert 1 in Provides(ByProgram, txs[0]) by {
      assert DeployPrograms(txs[0].payload)[0] == 1;
    }
    GainHas(ByProgram, txs, 1);
  }

  // A Run (10) with programs 1 and 2, its Proof (11), then a Deploy of 1 and 3.
  const StrayRun: Tx := RunOf(10, 1, 2)
  const StrayProof: Tx := Tx(11, Proof(10, 1, []))
  const StrayDeploy: Tx := Tx(12, Deploy(1, 3))

  /** The order can fail: a Deploy releases a Run that still misses another program,
      the Run goes back to waiting and its Proof is emitted without it. */
  lemma AChildCanComeFirst() returns (s: Pipeline, evs: seq<Event>)
    ensures StartsUp(s) && s.programs.known.capacity >= 2 && AllSaved(evs) && Receivable(evs)
    ensures !EarlierInLog(ByParent, s.parents.known.stored, HandleEvents(s, evs).txs)
  {
    s, evs := StrayEvents();
    StrayBreaksOrder(s, evs);
  }

  lemma StrayBreaksOrder(s: Pipeline, evs: seq<Event>)
    requires StartsUp(s) && s.programs.known.capacity >= 2 && AllSaved(evs)
    requires !NoneStrayInRun(Uncached(s), evs, s.parents.known.stored)
    ensures !EarlierInLog(ByParent, s.parents.known.stored, HandleEvents(s, evs).txs)
  {
    CacheIsInvisible(s, evs);
    StartSimulates(s);
    assert s.parents.known.Content() == s.parents.known.stored;
    ParentsComeFirstIff(Uncached(s), evs);
  }

  lemma StrayEvents() returns (s: Pipeline, evs: seq<Event>)
    ensures StartsUp(s) && s.programs.known.capacity >= 2 && AllSaved(evs) && Receivable(evs)
    ensures !NoneStrayInRun(Uncached(s), evs, s.parents.known.stored)
  {
    s := Start(Cached(2, [], {}), Cached(2, [], {}));
    evs := [Event(StrayRun, {}), Event(StrayProof, {}), Event(StrayDeploy, {})];
    StrayOccurs(s, evs);
  }

  lemma StrayOccurs(s: Pipeline, evs: seq<Event>)
    requires s == Start(Cached(2, [], {}), Cached(2, [], {}))
    requires evs == [Event(StrayRun, {}), Event(StrayProof, {}), Event(StrayDeploy, {})]
    ensures !NoneStrayInRun(Uncached(s), evs, {})
  {
    var u := Uncached(s);
    assert u == Start(Exact({}), Exact({})) by {
      assert Cached(2, [], {}).Content() == {};
    }
    RunOfPrograms(10, 1, 2);
    assert FirstUnknown(Exact({}), [1, 2]) == Some(1);
    RunParks(u, StrayRun, 1);
    var u1 := ParkOnProgram(u, 1, StrayRun);
    assert HandleEvent(u, evs[0]) == Outcome(u1, []) by {
      assert SaveTxs(u1, [], {}) == u1;
    }
    ChildParks(u1, StrayProof, 10);
    var u2 := ParkOnParent(u1, 10, StrayProof);
    assert DropLast(evs) == [evs[0], evs[1]];
    TwoEvents(u, evs[0], evs[1]);
    assert HandleEvents(u, DropLast(evs)).state == u2;
    assert {} + Gain(ByParent, []) == {};
    StrayDeployStrays(u2);
  }

  /** A child whose parent is unknown goes into the waiting map, and nothing comes out. */
  lemma ChildParks(s: Pipeline, tx: Tx, parent: Hash)
    requires s.programs.known.Exact? && s.parents.known.Exact? && !Full(s.parents)
    requires ParentOf(tx.payload) == Some(parent) && parent !in s.parents.known.all && parent !in s.parents.waiting
    ensures HandleEvent(s, Event(tx, {})) == Outcome(ParkOnParent(s, parent, tx), [])
    ensures ParkOnParent(s, parent, tx)
         == s.(parents := s.parents.(waiting := s.parents.waiting[parent := Entry([tx], s.clock(s.ticks))]),
               ticks := s.ticks + 1)
  {
    var parked := ParkOnParent(s, parent, tx);
    assert [] + [tx] == [tx];
    assert ProgramDep(s, tx) == Outcome(s, [tx]) by {
      assert FirstUnknown(s.programs.known, []) == None;
      assert Release(s, []) == Outcome(s, []);
    }
    assert ParentMissing(s, tx);
    assert ParentDeps(s, [tx]) == Outcome(parked, []) by {
      assert ParentDep(s, tx) == Outcome(parked, []);
      assert [tx][1..] == [];
      assert ParentDeps(parked, []) == Outcome(parked, []);
    }
    assert SaveTxs(parked, [], {}) == parked;
  }

  lemma StrayDeployStrays(s: Pipeline)
    requires s.programs.waiting == map[1 := Entry([StrayRun], 0)] && s.programs.known == Exact({})
    requires s.parents.waiting == map[10 := Entry([StrayProof], 0)] && s.parents.known == Exact({})
    ensures !NoneStrayIn(s, StrayDeploy, {})
  {
    RunOfPrograms(10, 1, 2);
    var s1 := Release(s, [1, 3]).state;
    ReleaseTwice(s, 1, 3);
    assert 3 !in s.programs.waiting - {1};
    assert s1.programs.known == Exact({1, 3}) && s1.parents == s.parents;
    assert ProgramDep(s, StrayDeploy).txs == [StrayDeploy, StrayRun] by {
      assert RunPrograms(StrayDeploy.payload) == [] && FirstUnknown(s.programs.known, []) == None;
      assert [StrayDeploy] + ([StrayRun] + []) == [StrayDeploy, StrayRun];
    }
    StrayRunStrays(s1);
    assert [StrayDeploy, StrayRun][1..] == [StrayRun];
    var r := ParentDep(s1, StrayDeploy);
    assert !NoneStray(r.state, [StrayRun], {} + Gain(ByParent, r.txs));
    assert ProgramDep(s, StrayDeploy).state == s1;
  }

  lemma StrayRunStrays(s: Pipeline)
    requires s.programs.waiting == map[] && s.programs.known == Exact({1, 3})
    requires s.parents.waiting == map[10 := Entry([StrayProof], 0)] && s.parents.known == Exact({})
    ensures var r := ParentDep(s, StrayDeploy);
            Strays(r.state, StrayRun, {} + Gain(ByParent, r.txs))
  {
    var r := ParentDep(s, StrayDeploy);
    assert WellParked(s);
    ParentDepFree(s, StrayDeploy);
    OwnShape(s, StrayDeploy);
    ParentDepLearns(s, StrayDeploy);
    assert r.txs == [StrayDeploy] && Gain(ByParent, [StrayDeploy]) == {12};
    RunOfPrograms(10, 1, 2);
    assert FirstUnknown(r.state.programs.known, [1, 2]) == Some(2) by {
      assert [1, 2][1..] == [2];
    }
    assert 10 in r.state.parents.waiting;
  }

  // A Verification (12) of the Proof (11) of a Run (10) of the stored programs 1 and 2.
  const LateVerification: Tx := Tx(12, Verification(11, 2, []))

  /** Releasing is one level deep: when the Run arrives last its Proof goes out with it,
      and the Verification stays parked on that Proof. */
  lemma AGrandchildIsLeftWaiting() returns (s: Pipeline, evs: seq<Event>, key: Hash)
    ensures StartsUp(s) && s.programs.known.capacity >= 2 && AllSaved(evs) && Receivable(evs)
    ensures key in HandleEvents(s, evs).state.parents.waiting && key in Hashes(HandleEvents(s, evs).txs)
  {
    s := Start(Cached(2, [], {1, 2}), Cached(2, [], {}));
    evs := GrandchildEvents();
    key := 11;
    CacheIsInvisible(s, evs);
    assert Uncached(s) == Start(Exact({1, 2}), Exact({})) by {
      assert Cached(2, [], {1, 2}).Content() == {1, 2} && Cached(2, [], {}).Content() == {};
    }
  }

  ghost predicate LeftBehind(s: Pipeline, evs: seq<Event>, key: Hash) {
    key in HandleEvents(s, evs).state.parents.waiting && key in Hashes(HandleEvents(s, evs).txs)
  }

  lemma LastLeavesBehind(s: Pipeline, evs: seq<Event>, before: Pipeline, key: Hash)
    requires evs != [] && HandleEvents(s, DropLast(evs)) == Outcome(before, [])
    requires var r := HandleEvent(before, Last(evs));
             key in r.state.parents.waiting && key in Hashes(r.txs)
    ensures LeftBehind(s, evs, key)
  {
    var r := HandleEvent(before, Last(evs));
    assert [] + r.txs == r.txs;
  }

  lemma GrandchildEvents() returns (evs: seq<Event>)
    ensures AllSaved(evs) && Receivable(evs) && LeftBehind(Start(Exact({1, 2}), Exact({})), evs, 11)
  {
    var u := Start(Exact({1, 2}), Exact({}));
    evs := [Event(LateVerification, {}), Event(StrayProof, {}), Event(StrayRun, {})];
    GrandchildParks(u, evs);
  }

  lemma GrandchildParks(u: Pipeline, evs: seq<Event>)
    requires u == Start(Exact({1, 2}), Exact({}))
    requires evs == [Event(LateVerification, {}), Event(StrayProof, {}), Event(StrayRun, {})]
    ensures LeftBehind(u, evs, 11)
  {
    ChildParks(u, LateVerification, 11);
    var u1 := ParkOnParent(u, 11, LateVerification);
    ChildParks(u1, StrayProof, 10);
    var u2 := ParkOnParent(u1, 10, StrayProof);
    assert DropLast(evs) == [evs[0], evs[1]];
    TwoEvents(u, evs[0], evs[1]);
    RunTakesItsProof(u2);
    assert Hashes([StrayRun, StrayProof])[1] == 11;
    LastLeavesBehind(u, evs, u2, 11);
  }

  lemma RunTakesItsProof(s: Pipeline)
    requires s.programs.known == Exact({1, 2}) && s.programs.waiting == map[] && s.parents.known == Exact({})
    requires s.parents.waiting == map[11 := Entry([LateVerification], 0), 10 := Entry([StrayProof], 0)]
    ensures var r := HandleEvent(s, Event(StrayRun, {}));
            r.txs == [StrayRun, StrayProof] && 11 in r.state.parents.waiting
  {
    RunOfPrograms(10, 1, 2);
    assert FirstUnknown(s.programs.known, [1, 2]) == None by {
      assert [1, 2][1..] == [2];
    }
    assert ProgramDep(s, StrayRun) == Outcome(s, [StrayRun]) by {
      assert Release(s, []) == Outcome(s, []);
    }
    assert WellParked(s);
    ParentDepFree(s, StrayRun);
    OwnShape(s, StrayRun);
    var r := ParentDep(s, StrayRun);
    assert r.txs == [StrayRun, StrayProof];
    assert ParentDeps(s, [StrayRun]) == r by {
      assert [StrayRun][1..] == [] && r.txs + [] == r.txs;
      assert ParentDeps(r.state, []) == Outcome(r.state, []);
    }
  }
}
