/** The admission pipeline as it runs: two mutable caches, storage, a clock, and the
    loops that move transactions between them. Each method is proved to compute the
    function of the same name on values. */
module AdmissionNode {
  import opened Basics
  import opened Transactions
  import opened AdmissionModel
  import opened AdmissionOrder
  import opened AdmissionRefinement
  import opened AdmissionGuarantees

  /** Readings come from outside; the object only counts them. */
  class Clock {
    const readings: nat -> int
    var ticks: nat

    constructor (readings: nat -> int)
      ensures this.readings == readings && ticks == 0
    {
      this.readings := readings;
      ticks := 0;
    }

    method Now() returns (now: int)
      modifies this
      ensures now == readings(old(ticks)) && ticks == old(ticks) + 1
    {
      now := readings(ticks);
      ticks := ticks + 1;
    }
  }

  class Storage {
    var txs: set<Hash>
    var programs: set<Hash>

    constructor (txs: set<Hash>, programs: set<Hash>)
      ensures this.txs == txs && this.programs == programs
    {
      this.txs := txs;
      this.programs := programs;
    }

    method SaveTx(tx: Tx)
      modifies this
      ensures txs == old(txs) + {tx.hash}
      ensures programs == old(programs) + Elems(DeployPrograms(tx.payload))
    {
      txs := txs + {tx.hash};
      programs := programs + Elems(DeployPrograms(tx.payload));
    }
  }

  /** The entries that survive making room at time `now`. */
  ghost predicate Stays(w: Waiting, limits: Limits, k: Hash, now: int) {
    k in w && (|w| < limits.maxWaiting || now - w[k].since <= limits.maxAge)
  }

  /** Parking `tx` on `key`: at time `now` a full map loses what is older than the limit;
      the transaction goes last in its entry, which keeps the time of its first and is
      from time `at` if it is new. */
  ghost predicate ParkedExactly(w: Waiting, w': Waiting, limits: Limits, key: Hash, tx: Tx, now: int, at: int) {
    && (forall k :: k != key ==> (k in w' <==> Stays(w, limits, k, now)))
    && (forall k :: k != key && k in w' && k in w ==> w'[k] == w[k])
    && key in w'
    && (Stays(w, limits, key, now) ==> w'[key] == Entry(w[key].txs + [tx], w[key].since))
    && (!Stays(w, limits, key, now) ==> w'[key] == Entry([tx], at))
  }

  lemma ParkIsExact(c: Cache, key: Hash, tx: Tx, clock: nat -> int, ticks: nat)
    ensures ParkedExactly(c.waiting, Park(c, key, tx, clock, ticks).waiting, c.limits, key, tx, clock(ticks),
                          clock(ticks + ParkTicks(c) - 1))
  {
    assert [] + [tx] == [tx];
  }

  class TxCache {
    var waiting: Waiting
    var recent: seq<Hash>
    const capacity: nat
    const limits: Limits
    ghost var evicted: multiset<Tx>

    ghost function View(stored: set<Hash>): Cache
      reads this
    {
      Cache(waiting, Cached(capacity, recent, stored), limits, evicted)
    }

    constructor (capacity: nat, limits: Limits)
      requires capacity > 0
      ensures this.capacity == capacity && this.limits == limits
      ensures waiting == map[] && recent == [] && evicted == multiset{}
    {
      this.capacity := capacity;
      this.limits := limits;
      waiting := map[];
      recent := [];
      evicted := multiset{};
    }

    method IsTxCached(h: Hash) returns (cached: bool)
      ensures cached <==> h in recent
    {
      cached := h in recent;
    }

    method AddCachedTx(h: Hash, ghost stored: set<Hash>)
      modifies this
      ensures View(stored) == old(View(stored)).(known := old(View(stored)).known.Learn(h))
      ensures h in recent
    {
      recent := Touch(recent, capacity, h);
    }

    method ExpiredKeys(now: int) returns (keys: seq<Hash>)
      ensures forall k :: k in keys <==> k in waiting && Expired(waiting[k], limits, now)
    {
      keys := [];
      var todo := waiting.Keys;
      while todo != {}
        invariant todo <= waiting.Keys
        invariant forall k :: k in keys <==> k in waiting && k !in todo && Expired(waiting[k], limits, now)
        decreases todo
      {
        var k :| k in todo;
        if Expired(waiting[k], limits, now) {
          keys := keys + [k];
        }
        todo := todo - {k};
      }
    }

    method RemoveKeys(keys: seq<Hash>)
      modifies this`waiting
      ensures waiting == old(waiting) - Elems(keys)
    {
      var i := 0;
      while i < |keys|
        invariant 0 <= i <= |keys|
        invariant waiting == old(waiting) - Elems(keys[..i])
      {
        waiting := waiting - {keys[i]};
        assert keys[..i + 1] == keys[..i] + [keys[i]];
        i := i + 1;
      }
      assert keys[..i] == keys;
    }

    /** Collect the keys that are too old, then remove them one by one. */
    method EvictOldWaitingTx(clock: Clock, ghost stored: set<Hash>)
      modifies this, clock
      ensures View(stored) == Evict(old(View(stored)), clock.readings(old(clock.ticks)))
      ensures forall k :: k in waiting <==>
                k in old(waiting) && clock.readings(old(clock.ticks)) - old(waiting)[k].since <= limits.maxAge
      ensures forall k :: k in waiting ==> waiting[k] == old(waiting)[k]
      ensures clock.ticks == old(clock.ticks) + 1
    {
      var now := clock.Now();
      var keys := ExpiredKeys(now);
      ghost var aged := map k | k in waiting && Expired(waiting[k], limits, now) :: waiting[k];
      RemoveKeys(keys);
      evicted := evicted + AllWaiting(aged);
      assert waiting == map k | k in old(waiting) && !Expired(old(waiting)[k], limits, now) :: old(waiting)[k];
    }

    method AddNewWaitingTx(clock: Clock, parent: Hash, tx: Tx, ghost stored: set<Hash>)
      modifies this, clock
      ensures View(stored) == Park(old(View(stored)), parent, tx, clock.readings, old(clock.ticks))
      ensures clock.ticks == old(clock.ticks) + ParkTicks(old(View(stored)))
      ensures ParkedExactly(old(waiting), waiting, limits, parent, tx, clock.readings(old(clock.ticks)),
                            clock.readings(old(clock.ticks) + ParkTicks(old(View(stored))) - 1))
    {
      ParkIsExact(View(stored), parent, tx, clock.readings, clock.ticks);
      if |waiting| >= limits.maxWaiting {
        EvictOldWaitingTx(clock, stored);
      }
      var now := clock.Now();
      var entry := if parent in waiting then waiting[parent] else Entry([], now);
      waiting := waiting[parent := Entry(entry.txs + [tx], entry.since)];
    }

    method RemoveWaitingChildrenTxs(parent: Hash, ghost stored: set<Hash>) returns (txs: seq<Tx>)
      modifies this
      ensures txs == Waiters(old(waiting), parent)
      ensures View(stored) == old(View(stored)).(waiting := old(waiting) - {parent})
    {
      if parent in waiting {
        txs := waiting[parent].txs;
      } else {
        txs := [];
      }
      waiting := waiting - {parent};
    }
  }

  lemma {:induction false} ParentDepsSnoc(s: Pipeline, txs: seq<Tx>, tx: Tx)
    ensures var r := ParentDeps(s, txs);
            var q := ParentDep(r.state, tx);
            ParentDeps(s, txs + [tx]) == Outcome(q.state, r.txs + q.txs)
    decreases |txs|
  {
    var all := txs + [tx];
    if txs == [] {
      assert all[0] == tx && all[1..] == [];
    } else {
      assert all[0] == txs[0] && all[1..] == txs[1..] + [tx];
      var first := ParentDep(s, all[0]);
      ParentDepsSnoc(first.state, txs[1..], tx);
      var r := ParentDeps(first.state, txs[1..]);
      ConcatAssoc(first.txs, r.txs, ParentDep(r.state, tx).txs);
    }
  }

  lemma ParentDepsNext(s: Pipeline, txs: seq<Tx>, i: nat, done: Outcome, next: Outcome)
    requires i < |txs| && done == ParentDeps(s, txs[..i]) && next == ParentDep(done.state, txs[i])
    ensures ParentDeps(s, txs[..i + 1]) == Outcome(next.state, done.txs + next.txs)
  {
    ParentDepsSnoc(s, txs[..i], txs[i]);
    assert txs[..i + 1] == txs[..i] + [txs[i]];
  }

  /** The state of the event loop. */
  class Node {
    const programs: TxCache
    const parents: TxCache
    const storage: Storage
    const clock: Clock

    ghost predicate Valid() {
      programs != parents
    }

    ghost function View(): Pipeline
      reads programs, parents, storage, clock
    {
      Pipeline(programs.View(storage.programs), parents.View(storage.txs), clock.readings, clock.ticks)
    }

    constructor (capacity: nat, limits: Limits, storage: Storage, clock: Clock)
      requires capacity > 0
      ensures Valid() && fresh(programs) && fresh(parents)
      ensures this.storage == storage && this.clock == clock
      ensures View() == Pipeline(Cache(map[], Cached(capacity, [], storage.programs), limits, multiset{}),
                                 Cache(map[], Cached(capacity, [], storage.txs), limits, multiset{}),
                                 clock.readings, clock.ticks)
    {
      programs := new TxCache(capacity, limits);
      parents := new TxCache(capacity, limits);
      this.storage := storage;
      this.clock := clock;
    }

    /** Let a transaction through if its program is known, park it otherwise. */
    method WaitForProgram(key: Hash, tx: Tx) returns (ready: bool)
      requires Valid()
      modifies programs, clock
      ensures ready <==> old(View()).programs.known.Has(key)
      ensures View() == if ready then old(View()) else ParkOnProgram(old(View()), key, tx)
    {
      ready := programs.IsTxCached(key);
      if !ready {
        ready := key in storage.programs;
        if !ready {
          programs.AddNewWaitingTx(clock, key, tx, storage.programs);
        }
      }
    }

    method WaitForParent(key: Option<Hash>, tx: Tx) returns (ready: bool)
      requires Valid()
      modifies parents, clock
      ensures ready <==> key.None? || old(View()).parents.known.Has(key.value)
      ensures View() == if ready then old(View()) else ParkOnParent(old(View()), key.value, tx)
    {
      if key.None? {
        return true;
      }
      ready := parents.IsTxCached(key.value);
      if !ready {
        ready := key.value in storage.txs;
        if !ready {
          parents.AddNewWaitingTx(clock, key.value, tx, storage.txs);
        }
      }
    }

    method ManageProgramDep(tx: Tx) returns (txs: seq<Tx>)
      requires Valid()
      modifies programs, clock
      ensures Outcome(View(), txs) == ProgramDep(old(View()), tx)
    {
      ghost var s := View();
      var needed := RunPrograms(tx.payload);
      var i := 0;
      while i < |needed|
        invariant 0 <= i <= |needed|
        invariant View() == s
        invariant FirstUnknown(s.programs.known, needed) == FirstUnknown(s.programs.known, needed[i..])
      {
        assert needed[i..][0] == needed[i] && needed[i..][1..] == needed[i + 1..];
        var ready := WaitForProgram(needed[i], tx);
        if !ready {
          return [];
        }
        i := i + 1;
      }
      txs := ReleaseWaiters(DeployPrograms(tx.payload));
      txs := [tx] + txs;
    }

    method ReleaseWaiters(deployed: seq<Hash>) returns (txs: seq<Tx>)
      requires Valid()
      modifies programs
      ensures Outcome(View(), txs) == Release(old(View()), deployed)
    {
      ghost var s := View();
      txs := [];
      var i := 0;
      while i < |deployed|
        invariant 0 <= i <= |deployed|
        invariant var rest := Release(View(), deployed[i..]);
                  Release(s, deployed) == Outcome(rest.state, txs + rest.txs)
      {
        ghost var before := View();
        assert deployed[i..][0] == deployed[i] && deployed[i..][1..] == deployed[i + 1..];
        programs.AddCachedTx(deployed[i], storage.programs);
        var freed := programs.RemoveWaitingChildrenTxs(deployed[i], storage.programs);
        assert View() == ReleaseOne(before, deployed[i]);
        txs := txs + freed;
        i := i + 1;
      }
    }

    method RevalidateRuns(candidates: seq<Tx>) returns (txs: seq<Tx>)
      requires Valid()
      modifies programs, clock
      ensures Outcome(View(), txs) == Revalidate(old(View()), candidates)
    {
      ghost var s := View();
      txs := [];
      var i := 0;
      while i < |candidates|
        invariant 0 <= i <= |candidates|
        invariant var rest := Revalidate(View(), candidates[i..]);
                  Revalidate(s, candidates) == Outcome(rest.state, txs + rest.txs)
      {
        ghost var before := View();
        assert candidates[i..][0] == candidates[i] && candidates[i..][1..] == candidates[i + 1..];
        var checked := [candidates[i]];
        if candidates[i].payload.Run? {
          checked := ManageProgramDep(candidates[i]);
        }
        assert Outcome(View(), checked) == Recheck(before, candidates[i]);
        txs := txs + checked;
        i := i + 1;
      }
    }

    method CacheTxs(txs: seq<Tx>)
      requires Valid()
      modifies parents
      ensures View() == old(View()).(parents := old(View()).parents.(known := old(View()).parents.known.LearnAll(Hashes(txs))))
    {
      ghost var s := View();
      ghost var hs := Hashes(txs);
      var i := 0;
      while i < |txs|
        invariant 0 <= i <= |txs|
        invariant View() == s.(parents := s.parents.(known := View().parents.known))
        invariant s.parents.known.LearnAll(hs) == View().parents.known.LearnAll(hs[i..])
      {
        assert hs[i..][0] == txs[i].hash && hs[i..][1..] == hs[i + 1..];
        parents.AddCachedTx(txs[i].hash, storage.txs);
        i := i + 1;
      }
    }

    method ManageParentDep(tx: Tx) returns (txs: seq<Tx>)
      requires Valid()
      modifies programs, parents, clock
      ensures Outcome(View(), txs) == ParentDep(old(View()), tx)
    {
      var ready := WaitForParent(ParentOf(tx.payload), tx);
      if !ready {
        return [];
      }
      var children := parents.RemoveWaitingChildrenTxs(tx.hash, storage.txs);
      txs := RevalidateRuns([tx] + children);
      CacheTxs(txs);
    }

    method ManageParentDeps(candidates: seq<Tx>) returns (txs: seq<Tx>)
      requires Valid()
      modifies programs, parents, clock
      ensures Outcome(View(), txs) == ParentDeps(old(View()), candidates)
    {
      ghost var s, done := View(), Outcome(View(), []);
      txs := [];
      var i := 0;
      while i < |candidates|
        invariant 0 <= i <= |candidates|
        invariant done == ParentDeps(s, candidates[..i])
        invariant View() == done.state && txs == done.txs
      {
        var ready := ManageParentDep(candidates[i]);
        ParentDepsNext(s, candidates, i, done, Outcome(View(), ready));
        txs := txs + ready;
        done := Outcome(View(), txs);
        i := i + 1;
      }
      assert candidates[..i] == candidates;
    }

    method ValidateDependencies(tx: Tx) returns (txs: seq<Tx>)
      requires Valid()
      modifies programs, parents, clock
      ensures Outcome(View(), txs) == ValidateTxDep(old(View()), tx)
    {
      var candidates := ManageProgramDep(tx);
      txs := ManageParentDeps(candidates);
    }

    /** Save in order; a failed save is reported and the next one still tried. */
    method SaveAll(txs: seq<Tx>, failed: set<nat>)
      requires Valid()
      modifies storage
      ensures View() == SaveTxs(old(View()), txs, failed)
    {
      var i := 0;
      while i < |txs|
        invariant 0 <= i <= |txs|
        invariant storage.txs == old(storage.txs) + SavedHashes(txs[..i], failed)
        invariant storage.programs == old(storage.programs) + SavedPrograms(txs[..i], failed)
      {
        assert DropLast(txs[..i + 1]) == txs[..i] && Last(txs[..i + 1]) == txs[i];
        if i !in failed {
          storage.SaveTx(txs[i]);
        }
        i := i + 1;
      }
      assert txs[..i] == txs;
    }

    /** The event loop: validate, save everything released, only then the next event. */
    method Process(evs: seq<Event>) returns (emitted: seq<Tx>)
      requires Valid()
      modifies programs, parents, clock, storage
      ensures Outcome(View(), emitted) == HandleEvents(old(View()), evs)
    {
      ghost var s := View();
      emitted := [];
      var i := 0;
      while i < |evs|
        invariant 0 <= i <= |evs|
        invariant Outcome(View(), emitted) == HandleEvents(s, evs[..i])
      {
        assert DropLast(evs[..i + 1]) == evs[..i] && Last(evs[..i + 1]) == evs[i];
        var ready := ValidateDependencies(evs[i].tx);
        SaveAll(ready, evs[i].failedSaves);
        emitted := emitted + ready;
        i := i + 1;
      }
      assert evs[..i] == evs;
    }
  }

  /** What a node holds when it starts over `programs` and `txs` in storage. */
  ghost function NodeStart(programs: set<Hash>, txs: set<Hash>, readings: nat -> int, ticks: nat): Pipeline {
    Pipeline(Cache(map[], Cached(50, [], programs), Limits(100, 3600000), multiset{}),
             Cache(map[], Cached(50, [], txs), Limits(100, 3600000), multiset{}),
             readings, ticks)
  }

  /** The service from start-up, with the sizes the node runs with and saves that
      succeed: it emits what the pipeline without caches would, every Run after the
      Deploys it needs, and leaves no Run waiting for a program that is there. */
  method Serve(storage: Storage, clock: Clock, evs: seq<Event>) returns (node: Node, emitted: seq<Tx>)
    requires AllSaved(evs)
    modifies storage, clock
    ensures emitted
         == HandleEvents(Uncached(NodeStart(old(storage.programs), old(storage.txs), clock.readings, old(clock.ticks))), evs).txs
    ensures EarlierInLog(ByProgram, old(storage.programs), emitted)
    ensures forall key :: key in node.programs.waiting ==> key !in old(storage.programs) + Gain(ByProgram, emitted)
  {
    ghost var s := NodeStart(storage.programs, storage.txs, clock.readings, clock.ticks);
    node := new Node(NodeCapacity, NodeLimits, storage, clock);
    emitted := node.Process(evs);
    ServeKeeps(s, evs);
  }

  lemma ServeKeeps(s: Pipeline, evs: seq<Event>)
    requires StartsUp(s) && s.programs.known.capacity >= 2 && AllSaved(evs)
    ensures var r := HandleEvents(s, evs);
            && r.txs == HandleEvents(Uncached(s), evs).txs
            && EarlierInLog(ByProgram, s.programs.known.stored, r.txs)
            && forall key :: key in r.state.programs.waiting ==> key !in s.programs.known.stored + Gain(ByProgram, r.txs)
  {
    var r := HandleEvents(s, evs);
    CacheIsInvisible(s, evs);
    EveryRunFindsItsPrograms(s, evs);
    assert s.programs.known.Content() == s.programs.known.stored;
    forall key | key in r.state.programs.waiting
      ensures key !in s.programs.known.stored + Gain(ByProgram, r.txs)
    {
      RunsAreWoken(s, evs, key);
      GainHas(ByProgram, r.txs, key);
    }
  }
}
