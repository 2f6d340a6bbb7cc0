/** The dependency admission pipeline as functions on values.

    A Run waits for its programs and a Proof, ProofKey or Verification waits for
    its parent. Both waits are kept in a `Cache`: a map from the missing key to the
    transactions parked on it, plus the means to tell which keys are known. Every
    function here is generic in that means, so the same pipeline can be read with
    the bounded cache over storage or with one plain set. */
module AdmissionModel {
  import opened Basics
  import opened Transactions

  /** How a cache answers "is this key known?".
      `Cached`: a bounded list of recent keys, least recent first, backed by storage.
      `Exact`: one unbounded set, with nothing behind it. */
  datatype Known =
    | Cached(capacity: nat, recent: seq<Hash>, stored: set<Hash>)
    | Exact(all: set<Hash>)
  {
    function Content(): set<Hash> {
      match this
      case Cached(_, recent, stored) => Elems(recent) + stored
      case Exact(all) => all
    }

    predicate Has(h: Hash) {
      h in Content()
    }

    /** Remember a key: a hit moves it to the young end, a miss on a full list
        pushes the oldest key out. */
    function Learn(h: Hash): Known {
      match this
      case Cached(capacity, recent, stored) => Cached(capacity, Touch(recent, capacity, h), stored)
      case Exact(all) => Exact(all + {h})
    }

    function LearnAll(hs: seq<Hash>): Known
      decreases |hs|
    {
      if hs == [] then this else Learn(hs[0]).LearnAll(hs[1..])
    }

    function Save(hs: set<Hash>): Known {
      match this
      case Cached(capacity, recent, stored) => Cached(capacity, recent, stored + hs)
      case Exact(all) => Exact(all + hs)
    }
  }

  function Without(recent: seq<Hash>, h: Hash): seq<Hash> {
    if recent == [] then []
    else if recent[0] == h then Without(recent[1..], h)
    else [recent[0]] + Without(recent[1..], h)
  }

  /** `put` of a least-recently-used list with room for `capacity` keys. */
  function Touch(recent: seq<Hash>, capacity: nat, h: Hash): seq<Hash> {
    if h in recent then Without(recent, h) + [h]
    else if recent != [] && |recent| >= capacity then recent[1..] + [h]
    else recent + [h]
  }

  /** Transactions parked on one key, and when the first of them arrived. */
  datatype Entry = Entry(txs: seq<Tx>, since: int)

  type Waiting = map<Hash, Entry>

  datatype Limits = Limits(maxWaiting: nat, maxAge: nat)

  /** The sizes the node runs with; ages are in milliseconds. */
  const NodeCapacity: nat := 50
  const NodeLimits: Limits := Limits(100, 3600 * 1000)

  /** `evicted` records the transactions that age eviction has thrown away. */
  datatype Cache = Cache(waiting: Waiting, known: Known, limits: Limits, evicted: multiset<Tx>)

  /** Both caches and the clock. `clock(n)` is what the n-th reading returns;
      `ticks` counts the readings so far. */
  datatype Pipeline = Pipeline(programs: Cache, parents: Cache, clock: nat -> int, ticks: nat)

  datatype Outcome = Outcome(state: Pipeline, txs: seq<Tx>)

  // ---------------------------------------------------------------- waiting maps

  predicate Expired(e: Entry, limits: Limits, now: int) {
    now - e.since > limits.maxAge
  }

  function Waiters(w: Waiting, key: Hash): seq<Tx> {
    if key in w then w[key].txs else []
  }

  ghost function Evict(c: Cache, now: int): Cache {
    var aged := map k | k in c.waiting && Expired(c.waiting[k], c.limits, now) :: c.waiting[k];
    c.(waiting := map k | k in c.waiting && !Expired(c.waiting[k], c.limits, now) :: c.waiting[k],
       evicted := c.evicted + AllWaiting(aged))
  }

  /** Everything parked anywhere in the map. */
  ghost function AllWaiting(w: Waiting): multiset<Tx> {
    if w == map[] then multiset{}
    else
      var k :| k in w;
      multiset(w[k].txs) + AllWaiting(w - {k})
  }

  predicate Full(c: Cache) {
    |c.waiting| >= c.limits.maxWaiting
  }

  function ParkTicks(c: Cache): nat {
    if Full(c) then 2 else 1
  }

  ghost function Room(c: Cache, clock: nat -> int, ticks: nat): Cache {
    if Full(c) then Evict(c, clock(ticks)) else c
  }

  ghost function Join(c: Cache, key: Hash, tx: Tx, now: int): Cache {
    var e := if key in c.waiting then c.waiting[key] else Entry([], now);
    c.(waiting := c.waiting[key := Entry(e.txs + [tx], e.since)])
  }

  /** Park a transaction: a full map first drops what is too old. The clock is read
      for a new entry even when the key already has one. */
  ghost function Park(c: Cache, key: Hash, tx: Tx, clock: nat -> int, ticks: nat): Cache {
    Join(Room(c, clock, ticks), key, tx, clock(ticks + ParkTicks(c) - 1))
  }

  ghost function ParkOnProgram(s: Pipeline, key: Hash, tx: Tx): Pipeline {
    s.(programs := Park(s.programs, key, tx, s.clock, s.ticks),
       ticks := s.ticks + ParkTicks(s.programs))
  }

  ghost function ParkOnParent(s: Pipeline, key: Hash, tx: Tx): Pipeline {
    s.(parents := Park(s.parents, key, tx, s.clock, s.ticks),
       ticks := s.ticks + ParkTicks(s.parents))
  }

  // ---------------------------------------------------------------- dependencies

  function FirstUnknown(known: Known, ps: seq<Hash>): Option<Hash> {
    if ps == [] then None
    else if !known.Has(ps[0]) then Some(ps[0])
    else FirstUnknown(known, ps[1..])
  }

  /** Learn one deployed program and let its waiters go. */
  ghost function ReleaseOne(s: Pipeline, p: Hash): Pipeline {
    s.(programs := s.programs.(known := s.programs.known.Learn(p),
                               waiting := s.programs.waiting - {p}))
  }

  ghost function Release(s: Pipeline, ps: seq<Hash>): Outcome
    decreases |ps|
  {
    if ps == [] then Outcome(s, [])
    else
      var rest := Release(ReleaseOne(s, ps[0]), ps[1..]);
      Outcome(rest.state, Waiters(s.programs.waiting, ps[0]) + rest.txs)
  }

  ghost function ProgramDep(s: Pipeline, tx: Tx): Outcome {
    match FirstUnknown(s.programs.known, RunPrograms(tx.payload))
    case Some(p) => Outcome(ParkOnProgram(s, p, tx), [])
    case None =>
      var released := Release(s, DeployPrograms(tx.payload));
      Outcome(released.state, [tx] + released.txs)
  }

  /** A Run is checked against its programs once more, the rest pass through. */
  ghost function Recheck(s: Pipeline, tx: Tx): Outcome {
    if tx.payload.Run? then ProgramDep(s, tx) else Outcome(s, [tx])
  }

  ghost function Revalidate(s: Pipeline, txs: seq<Tx>): Outcome
    decreases |txs|
  {
    if txs == [] then Outcome(s, [])
    else
      var first := Recheck(s, txs[0]);
      var rest := Revalidate(first.state, txs[1..]);
      Outcome(rest.state, first.txs + rest.txs)
  }

  function Hashes(txs: seq<Tx>): seq<Hash> {
    seq(|txs|, i requires 0 <= i < |txs| => txs[i].hash)
  }

  ghost predicate ParentMissing(s: Pipeline, tx: Tx) {
    ParentOf(tx.payload).Some? && !s.parents.known.Has(ParentOf(tx.payload).value)
  }

  /** Take the children of `key` out of the parent waiting map. */
  ghost function DropChildren(s: Pipeline, key: Hash): Pipeline {
    s.(parents := s.parents.(waiting := s.parents.waiting - {key}))
  }

  ghost function ParentDep(s: Pipeline, tx: Tx): Outcome {
    if ParentMissing(s, tx) then
      Outcome(ParkOnParent(s, ParentOf(tx.payload).value, tx), [])
    else
      var r := Revalidate(DropChildren(s, tx.hash), [tx] + Waiters(s.parents.waiting, tx.hash));
      Outcome(r.state.(parents := r.state.parents.(known := r.state.parents.known.LearnAll(Hashes(r.txs)))), r.txs)
  }

  ghost function ParentDeps(s: Pipeline, txs: seq<Tx>): Outcome
    decreases |txs|
  {
    if txs == [] then Outcome(s, [])
    else
      var first := ParentDep(s, txs[0]);
      var rest := ParentDeps(first.state, txs[1..]);
      Outcome(rest.state, first.txs + rest.txs)
  }

  /** One received transaction: settle its program dependency, then the parent
      dependency of everything that came free. */
  ghost function ValidateTxDep(s: Pipeline, tx: Tx): Outcome {
    var r := ProgramDep(s, tx);
    ParentDeps(r.state, r.txs)
  }

  // ---------------------------------------------------------------- whole runs

  /** A received transaction, and which of the saves that follow it fail. */
  datatype Event = Event(tx: Tx, failedSaves: set<nat>)

  function SavedHashes(txs: seq<Tx>, failed: set<nat>): set<Hash> {
    if txs == [] then {}
    else SavedHashes(DropLast(txs), failed)
         + if |txs| - 1 in failed then {} else {Last(txs).hash}
  }

  function SavedPrograms(txs: seq<Tx>, failed: set<nat>): set<Hash> {
    if txs == [] then {}
    else SavedPrograms(DropLast(txs), failed)
         + if |txs| - 1 in failed then {} else Elems(DeployPrograms(Last(txs).payload))
  }

  ghost function SaveTxs(s: Pipeline, txs: seq<Tx>, failed: set<nat>): Pipeline {
    s.(programs := s.programs.(known := s.programs.known.Save(SavedPrograms(txs, failed))),
       parents := s.parents.(known := s.parents.known.Save(SavedHashes(txs, failed))))
  }

  ghost function HandleEvent(s: Pipeline, ev: Event): Outcome {
    var r := ValidateTxDep(s, ev.tx);
    Outcome(SaveTxs(r.state, r.txs, ev.failedSaves), r.txs)
  }

  /** The event loop over a finite history; `txs` is the concatenated output. */
  ghost function HandleEvents(s: Pipeline, evs: seq<Event>): Outcome {
    if evs == [] then Outcome(s, [])
    else
      var before := HandleEvents(s, DropLast(evs));
      var r := HandleEvent(before.state, Last(evs));
      Outcome(r.state, before.txs + r.txs)
  }

  function Received(evs: seq<Event>): seq<Tx> {
    seq(|evs|, i requires 0 <= i < |evs| => evs[i].tx)
  }

  /** Events that pass transaction validation, which comes before all this: no Run
      names a program twice. */
  ghost predicate Receivable(evs: seq<Event>) {
    forall i :: 0 <= i < |evs| && evs[i].tx.payload.Run? ==> DistinctPrograms(evs[i].tx.payload.steps)
  }

  /** Nothing waiting and nothing learnt yet. */
  ghost predicate Fresh(s: Pipeline) {
    && s.programs.waiting == map[] && s.parents.waiting == map[]
    && s.programs.evicted == multiset{} && s.parents.evicted == multiset{}
    && (s.programs.known.Cached? ==> s.programs.known.recent == [])
    && (s.parents.known.Cached? ==> s.parents.known.recent == [])
  }

  /** Only Runs wait for programs, each on one of its own; only children wait for a
      parent, each on its own. */
  ghost predicate WellParked(s: Pipeline) {
    && (forall k :: k in s.programs.waiting ==> RunsOf(k, s.programs.waiting[k].txs))
    && (forall k :: k in s.parents.waiting ==> ChildrenOf(k, s.parents.waiting[k].txs))
  }

  ghost predicate RunsOf(program: Hash, txs: seq<Tx>) {
    forall i :: 0 <= i < |txs| ==> txs[i].payload.Run? && program in RunPrograms(txs[i].payload)
  }

  ghost predicate ChildrenOf(parent: Hash, txs: seq<Tx>) {
    forall i :: 0 <= i < |txs| ==> ParentOf(txs[i].payload) == Some(parent)
  }
}
