/** In which order waiting transactions stand and leave: by the time they were parked,
    and, where a transaction is parked only once, by the time it was received. */
module AdmissionArrival {
  import opened Basics
  import opened Transactions
  import opened Subsequences
  import opened AdmissionModel
  import opened AdmissionShape
  import opened AdmissionOrder

  // ---------------------------------------------------------------- the log of parkings

  /** A transaction was parked on `key`; the clock read `at`. */
  datatype Parking = Parking(key: Hash, tx: Tx, at: int)

  function ParkTime(c: Cache, clock: nat -> int, ticks: nat): int {
    clock(ticks + ParkTicks(c) - 1)
  }

  function RunParkings(s: Pipeline, tx: Tx): seq<Parking> {
    match FirstUnknown(s.programs.known, RunPrograms(tx.payload))
    case Some(p) => [Parking(p, tx, ParkTime(s.programs, s.clock, s.ticks))]
    case None => []
  }

  ghost function ChildParkings(s: Pipeline, tx: Tx): seq<Parking> {
    if ParentMissing(s, tx) then [Parking(ParentOf(tx.payload).value, tx, ParkTime(s.parents, s.clock, s.ticks))]
    else []
  }

  ghost function CheckParkings(dep: Dep, s: Pipeline, tx: Tx): seq<Parking> {
    match dep
    case ByProgram => if tx.payload.Run? then RunParkings(s, tx) else []
    case ByParent => ChildParkings(s, tx)
  }

  ghost function StageParkings(dep: Dep, s: Pipeline, txs: seq<Tx>): seq<Parking>
    decreases |txs|
  {
    if txs == [] then []
    else CheckParkings(dep, s, txs[0]) + StageParkings(dep, ParentDep(s, txs[0]).state, txs[1..])
  }

  ghost function EventParkings(dep: Dep, s: Pipeline, tx: Tx): seq<Parking> {
    var r := ProgramDep(s, tx);
    (if dep.ByProgram? then RunParkings(s, tx) else []) + StageParkings(dep, r.state, r.txs)
  }

  /** Every parking of a run, in order. */
  ghost function ParkingLog(dep: Dep, s: Pipeline, evs: seq<Event>): seq<Parking> {
    if evs == [] then []
    else ParkingLog(dep, s, DropLast(evs)) + EventParkings(dep, HandleEvents(s, DropLast(evs)).state, Last(evs).tx)
  }

  /** The program a Run is parked on: the first in its workflow that is not known. */
  lemma {:induction false} ParkedOnFirst(known: Known, ps: seq<Hash>, p: Hash)
    ensures FirstUnknown(known, ps) == Some(p) <==>
            exists i :: 0 <= i < |ps| && ps[i] == p && !known.Has(p) && forall j :: 0 <= j < i ==> known.Has(ps[j])
  {
    if ps != [] {
      ParkedOnFirst(known, ps[1..], p);
      if FirstUnknown(known, ps) == Some(p) && known.Has(ps[0]) {
        var i :| 0 <= i < |ps[1..]| && ps[1..][i] == p && forall j :: 0 <= j < i ==> known.Has(ps[1..][j]);
        assert ps[i + 1] == p && forall j :: 0 < j < i + 1 ==> ps[j] == ps[1..][j - 1];
      }
      if i :| 0 < i < |ps| && ps[i] == p && !known.Has(p) && forall j :: 0 <= j < i ==> known.Has(ps[j]) {
        assert ps[1..][i - 1] == p && forall j :: 0 <= j < i - 1 ==> ps[1..][j] == ps[j + 1];
        assert known.Has(ps[0]);
      }
    }
  }

  function IsOn(key: Hash): Parking -> bool {
    (p: Parking) => p.key == key
  }

  function Txs(log: seq<Parking>): seq<Tx> {
    seq(|log|, i requires 0 <= i < |log| => log[i].tx)
  }

  function WaitingFor(dep: Dep, s: Pipeline): Waiting {
    if dep.ByProgram? then s.programs.waiting else s.parents.waiting
  }

  /** An entry holds the last parkings on its key, from the n-th on, in their order, and
      has the time of the first of them. */
  ghost predicate HoldsFrom(e: Entry, log: seq<Parking>, n: nat) {
    n < |log| && e.txs == Txs(log[n..]) && e.since == log[n].at
  }

  ghost predicate Explained(w: Waiting, log: seq<Parking>, key: Hash) {
    key in w ==> exists n: nat :: HoldsFrom(w[key], Only(IsOn(key), log), n)
  }

  lemma OnlyOne(key: Hash, log: seq<Parking>, p: Parking)
    ensures Only(IsOn(key), log + [p]) == Only(IsOn(key), log) + if p.key == key then [p] else []
  {
    OnlyConcat(IsOn(key), log, [p]);
    assert Only(IsOn(key), [p][1..]) == [];
  }

  lemma HoldsMore(e: Entry, log: seq<Parking>, n: nat, p: Parking)
    requires HoldsFrom(e, log, n)
    ensures HoldsFrom(Entry(e.txs + [p.tx], e.since), log + [p], n)
  {
    assert (log + [p])[n..] == log[n..] + [p];
  }

  lemma ParkExplains(c: Cache, to: Hash, tx: Tx, clock: nat -> int, ticks: nat, log: seq<Parking>, key: Hash)
    requires Explained(c.waiting, log, key)
    ensures Explained(Park(c, to, tx, clock, ticks).waiting, log + [Parking(to, tx, ParkTime(c, clock, ticks))], key)
  {
    var p, on := Parking(to, tx, ParkTime(c, clock, ticks)), Only(IsOn(key), log);
    var w := Park(c, to, tx, clock, ticks).waiting;
    OnlyOne(key, log, p);
    if key in Room(c, clock, ticks).waiting {
      var n: nat :| HoldsFrom(c.waiting[key], on, n);
      HoldsMore(c.waiting[key], on, n, p);
      assert on + [] == on;
    } else if key == to {
      assert (on + [p])[|on|..] == [p] && [] + [tx] == [tx];
      assert HoldsFrom(w[key], on + [p], |on|);
    }
  }

  lemma RemoveExplains(w: Waiting, gone: Hash, log: seq<Parking>, key: Hash)
    requires Explained(w, log, key)
    ensures Explained(w - {gone}, log, key)
  {
    if key in w - {gone} {
      var n: nat :| HoldsFrom(w[key], Only(IsOn(key), log), n);
      assert HoldsFrom((w - {gone})[key], Only(IsOn(key), log), n);
    }
  }

  lemma {:induction false} ReleaseExplains(s: Pipeline, ps: seq<Hash>, log: seq<Parking>, key: Hash)
    requires Explained(s.programs.waiting, log, key)
    ensures Explained(Release(s, ps).state.programs.waiting, log, key)
    decreases |ps|
  {
    if ps != [] {
      RemoveExplains(s.programs.waiting, ps[0], log, key);
      ReleaseExplains(ReleaseOne(s, ps[0]), ps[1..], log, key);
    }
  }

  lemma ProgramDepExplains(s: Pipeline, tx: Tx, log: seq<Parking>, key: Hash)
    requires Explained(s.programs.waiting, log, key)
    ensures Explained(ProgramDep(s, tx).state.programs.waiting, log + RunParkings(s, tx), key)
  {
    match FirstUnknown(s.programs.known, RunPrograms(tx.payload))
    case Some(p) => ParkExplains(s.programs, p, tx, s.clock, s.ticks, log, key);
    case None =>
      ReleaseExplains(s, DeployPrograms(tx.payload), log, key);
      assert log + [] == log;
  }

  lemma ParentDepExplains(dep: Dep, s: Pipeline, tx: Tx, log: seq<Parking>, key: Hash)
    requires WellParked(s) && Explained(WaitingFor(dep, s), log, key)
    ensures Explained(WaitingFor(dep, ParentDep(s, tx).state), log + CheckParkings(dep, s, tx), key)
  {
    assert log + [] == log;
    if ParentMissing(s, tx) {
      if dep.ByParent? {
        ParkExplains(s.parents, ParentOf(tx.payload).value, tx, s.clock, s.ticks, log, key);
      }
    } else {
      ParentDepFree(s, tx);
      OwnShape(s, tx);
      if dep.ByParent? {
        RemoveExplains(s.parents.waiting, tx.hash, log, key);
      } else if tx.payload.Run? {
        ProgramDepExplains(DropChildren(s, tx.hash), tx, log, key);
      }
    }
  }

  lemma {:induction false} StageExplains(dep: Dep, s: Pipeline, txs: seq<Tx>, log: seq<Parking>, key: Hash)
    requires WellParked(s) && Explained(WaitingFor(dep, s), log, key)
    ensures Explained(WaitingFor(dep, ParentDeps(s, txs).state), log + StageParkings(dep, s, txs), key)
    decreases |txs|
  {
    if txs == [] {
      assert log + [] == log;
    } else {
      var next, first := ParentDep(s, txs[0]).state, CheckParkings(dep, s, txs[0]);
      ParentDepShape(s, txs[0]);
      ParentDepExplains(dep, s, txs[0], log, key);
      StageExplains(dep, next, txs[1..], log + first, key);
      ConcatAssoc(log, first, StageParkings(dep, next, txs[1..]));
    }
  }

  lemma EventExplains(dep: Dep, s: Pipeline, ev: Event, log: seq<Parking>, key: Hash)
    requires WellParked(s) && Explained(WaitingFor(dep, s), log, key)
    ensures Explained(WaitingFor(dep, HandleEvent(s, ev).state), log + EventParkings(dep, s, ev.tx), key)
  {
    var r, first := ProgramDep(s, ev.tx), if dep.ByProgram? then RunParkings(s, ev.tx) else [];
    ProgramDepShape(s, ev.tx);
    assert log + [] == log;
    if dep.ByProgram? {
      ProgramDepExplains(s, ev.tx, log, key);
    }
    StageExplains(dep, r.state, r.txs, log + first, key);
    ConcatAssoc(log, first, StageParkings(dep, r.state, r.txs));
  }

  /** What waits for a key, in every run: the transactions parked on it since the entry
      was made, in the order they were parked, and the entry is as old as the first. */
  lemma {:induction false} WaitersStandInOrder(dep: Dep, s: Pipeline, evs: seq<Event>, key: Hash)
    requires Fresh(s)
    ensures Explained(WaitingFor(dep, HandleEvents(s, evs).state), ParkingLog(dep, s, evs), key)
  {
    if evs != [] {
      WaitersStandInOrder(dep, s, DropLast(evs), key);
      AlwaysWellParked(s, DropLast(evs));
      EventExplains(dep, HandleEvents(s, DropLast(evs)).state, Last(evs), ParkingLog(dep, s, DropLast(evs)), key);
    }
  }

  // ---------------------------------------------------------------- children, by arrival

  lemma {:induction false} RunsHaveNoParent(s: Pipeline, txs: seq<Tx>)
    requires AllRuns(txs)
    ensures StageParkings(ByParent, s, txs) == []
    decreases |txs|
  {
    if txs != [] {
      RunsHaveNoParent(ParentDep(s, txs[0]).state, txs[1..]);
    }
  }

  /** Only the received transaction can be parked on a parent. */
  lemma OneChildParking(s: Pipeline, tx: Tx)
    requires WellParked(s)
    ensures var log := EventParkings(ByParent, s, tx);
            Txs(log) == [] || Txs(log) == [tx]
  {
    var r := ProgramDep(s, tx);
    ProgramDepShape(s, tx);
    if r.txs != [] {
      RunsHaveNoParent(ParentDep(r.state, tx).state, r.txs[1..]);
    }
  }

  lemma TxsInOrder(a: seq<Parking>, b: seq<Parking>)
    requires InOrderOf(a, b)
    ensures InOrderOf(Txs(a), Txs(b))
  {
    var f: seq<nat> :| Picks(f, a, b);
    assert Picks(f, Txs(a), Txs(b));
  }

  lemma {:induction false} ChildrenParkInOrder(s: Pipeline, evs: seq<Event>)
    requires WellParked(s)
    ensures InOrderOf(Txs(ParkingLog(ByParent, s, evs)), Received(evs))
  {
    if evs == [] {
      NothingInOrder(Received(evs));
      assert Txs([]) == [];
    } else {
      var before, log := HandleEvents(s, DropLast(evs)).state, ParkingLog(ByParent, s, DropLast(evs));
      var more := EventParkings(ByParent, before, Last(evs).tx);
      ChildrenParkInOrder(s, DropLast(evs));
      AlwaysWellParked(s, DropLast(evs));
      OneChildParking(before, Last(evs).tx);
      LogGrows(log, more, Received(DropLast(evs)), Last(evs).tx);
      ReceivedOneMore(evs);
    }
  }

  lemma ReceivedOneMore(evs: seq<Event>)
    requires evs != []
    ensures Received(evs) == Received(DropLast(evs)) + [Last(evs).tx]
  {
  }

  lemma LogGrows(log: seq<Parking>, more: seq<Parking>, received: seq<Tx>, tx: Tx)
    requires InOrderOf(Txs(log), received) && (Txs(more) == [] || Txs(more) == [tx])
    ensures InOrderOf(Txs(log + more), received + [tx])
  {
    assert Txs(log + more) == Txs(log) + Txs(more);
    assert Txs(log) + [] == Txs(log);
    InOrderGrows(Txs(log), received, tx);
  }

  lemma EntryInOrder(w: Waiting, log: seq<Parking>, key: Hash)
    requires Explained(w, log, key)
    ensures InOrderOf(Waiters(w, key), Txs(log))
  {
    if key in w {
      var on := Only(IsOn(key), log);
      var n: nat :| HoldsFrom(w[key], on, n);
      SuffixInOrder(on, n);
      OnlyInOrder(IsOn(key), log);
      InOrderTrans(on[n..], on, log);
      TxsInOrder(on[n..], log);
    } else {
      NothingInOrder(Txs(log));
    }
  }

  /** In every run the transactions waiting for one parent stand as they arrived. */
  lemma ChildrenWaitInOrder(s: Pipeline, evs: seq<Event>, key: Hash)
    requires Fresh(s)
    ensures InOrderOf(Waiters(HandleEvents(s, evs).state.parents.waiting, key), Received(evs))
  {
    var log := ParkingLog(ByParent, s, evs);
    WaitersStandInOrder(ByParent, s, evs, key);
    EntryInOrder(HandleEvents(s, evs).state.parents.waiting, log, key);
    ChildrenParkInOrder(s, evs);
    InOrderTrans(Waiters(HandleEvents(s, evs).state.parents.waiting, key), Txs(log), Received(evs));
  }

  function IsChildOf(key: Hash): Tx -> bool {
    (tx: Tx) => ParentOf(tx.payload) == Some(key)
  }

  lemma ChildrenOnly(parent: Hash, children: seq<Tx>, key: Hash)
    requires ChildrenOf(parent, children)
    ensures Only(IsChildOf(key), children) == if parent == key then children else []
  {
    if parent == key {
      OnlyAll(IsChildOf(key), children);
    } else {
      OnlyNone(IsChildOf(key), children);
    }
  }

  /** A parent check takes all that wait for its transaction, or leaves them alone. */
  lemma CheckTakes(s: Pipeline, tx: Tx, key: Hash)
    requires WellParked(s) && !ParentMissing(s, tx)
    ensures var r, own, waiting := ParentDep(s, tx), Own(s, tx).txs, Waiters(s.parents.waiting, key);
            && Only(IsChildOf(key), r.txs) == Only(IsChildOf(key), own) + (if tx.hash == key then waiting else [])
            && Waiters(r.state.parents.waiting, key) == (if tx.hash == key then [] else waiting)
  {
    var children := Waiters(s.parents.waiting, tx.hash);
    ParentDepFree(s, tx);
    OwnShape(s, tx);
    OnlyConcat(IsChildOf(key), Own(s, tx).txs, children);
    ChildrenOnly(tx.hash, children, key);
  }

  lemma RunTakes(s: Pipeline, run: Tx, key: Hash)
    requires WellParked(s) && run.payload.Run?
    ensures var r, waiting := ParentDep(s, run), Waiters(s.parents.waiting, key);
            && Only(IsChildOf(key), r.txs) == (if run.hash == key then waiting else [])
            && Waiters(r.state.parents.waiting, key) == (if run.hash == key then [] else waiting)
  {
    CheckTakes(s, run, key);
    OwnShape(s, run);
    OnlyNone(IsChildOf(key), Own(s, run).txs);
  }

  lemma TakenOnce(taken: bool, waiting: seq<Tx>, first: seq<Tx>, left: seq<Tx>, rest: seq<Tx>)
    requires first == (if taken then waiting else []) && left == (if taken then [] else waiting)
    requires rest == [] || rest == left
    ensures first + rest == [] || first + rest == waiting
  {
    assert waiting + [] == waiting && [] + rest == rest;
  }

  lemma {:induction false} RunsTakeOnce(s: Pipeline, txs: seq<Tx>, key: Hash)
    requires WellParked(s) && AllRuns(txs)
    ensures var out := Only(IsChildOf(key), ParentDeps(s, txs).txs);
            out == [] || out == Waiters(s.parents.waiting, key)
    decreases |txs|
  {
    if txs != [] {
      var first, waiting := ParentDep(s, txs[0]), Waiters(s.parents.waiting, key);
      var rest := ParentDeps(first.state, txs[1..]).txs;
      RunTakes(s, txs[0], key);
      ParentDepShape(s, txs[0]);
      RunsTakeOnce(first.state, txs[1..], key);
      OnlyConcat(IsChildOf(key), first.txs, rest);
      TakenOnce(txs[0].hash == key, waiting, Only(IsChildOf(key), first.txs),
                Waiters(first.state.parents.waiting, key), Only(IsChildOf(key), rest));
    }
  }

  /** The children of `key` among what an event releases, besides the received
      transaction itself, which comes first. */
  ghost function ReleasedChildren(s: Pipeline, ev: Event, key: Hash): seq<Tx> {
    var out := HandleEvent(s, ev).txs;
    if out == [] then [] else Only(IsChildOf(key), out[1..])
  }

  /** `out` begins with `tx`, and what follows holds all of `waiting` or no child of `key`. */
  ghost predicate TakesAllOrNone(out: seq<Tx>, tx: Tx, key: Hash, waiting: seq<Tx>) {
    out != [] ==>
      && out[0] == tx
      && (Only(IsChildOf(key), out[1..]) == [] || Only(IsChildOf(key), out[1..]) == waiting)
  }

  lemma EventTakesOnce(s: Pipeline, ev: Event, key: Hash)
    requires WellParked(s)
    ensures TakesAllOrNone(HandleEvent(s, ev).txs, ev.tx, key, Waiters(s.parents.waiting, key))
  {
    var p := ProgramDep(s, ev.tx);
    ProgramDepShape(s, ev.tx);
    if p.txs != [] {
      var first := ParentDep(p.state, ev.tx);
      if ParentMissing(p.state, ev.tx) {
        assert p.txs[1..] == [] && first.txs + [] == [];
        assert ParentDeps(first.state, []) == Outcome(first.state, []);
      } else {
        ProgramDepKnows(s, ev.tx);
        TakesOnce(p.state, ev.tx, first, p.txs[1..], key);
      }
    }
  }

  lemma ProgramDepKnows(s: Pipeline, tx: Tx)
    requires WellParked(s) && ProgramDep(s, tx).txs != []
    ensures FirstUnknown(ProgramDep(s, tx).state.programs.known, RunPrograms(tx.payload)).None?
  {
    ProgramDepShape(s, tx);
  }

  lemma TakesOnce(s: Pipeline, tx: Tx, first: Outcome, runs: seq<Tx>, key: Hash)
    requires WellParked(s) && AllRuns(runs) && FirstUnknown(s.programs.known, RunPrograms(tx.payload)).None?
    requires !ParentMissing(s, tx) && first == ParentDep(s, tx)
    ensures TakesAllOrNone(first.txs + ParentDeps(first.state, runs).txs, tx, key, Waiters(s.parents.waiting, key))
  {
    var children := Waiters(s.parents.waiting, tx.hash);
    PassesFirst(s, tx);
    assert ChildrenOf(tx.hash, children) by {
      ParentDepFree(s, tx);
    }
    ChildrenOnly(tx.hash, children, key);
    ParentDepShape(s, tx);
    RunsTakeOnce(first.state, runs, key);
    CheckTakes(s, tx, key);
    var rest, waiting := ParentDeps(first.state, runs).txs, Waiters(s.parents.waiting, key);
    AllOrNone(tx.hash == key, children, rest, key, waiting, Waiters(first.state.parents.waiting, key));
    Headed(tx, children, rest, key, waiting);
  }

  lemma AllOrNone(taken: bool, children: seq<Tx>, rest: seq<Tx>, key: Hash, waiting: seq<Tx>, left: seq<Tx>)
    requires Only(IsChildOf(key), children) == (if taken then waiting else [])
    requires left == (if taken then [] else waiting)
    requires Only(IsChildOf(key), rest) == [] || Only(IsChildOf(key), rest) == left
    ensures Only(IsChildOf(key), children + rest) == [] || Only(IsChildOf(key), children + rest) == waiting
  {
    OnlyConcat(IsChildOf(key), children, rest);
    TakenOnce(taken, waiting, Only(IsChildOf(key), children), left, Only(IsChildOf(key), rest));
  }

  lemma Headed(tx: Tx, children: seq<Tx>, rest: seq<Tx>, key: Hash, waiting: seq<Tx>)
    requires Only(IsChildOf(key), children + rest) == [] || Only(IsChildOf(key), children + rest) == waiting
    ensures TakesAllOrNone([tx] + children + rest, tx, key, waiting)
  {
    var out := [tx] + children + rest;
    assert out[1..] == children + rest;
  }

  lemma PassesFirst(s: Pipeline, tx: Tx)
    requires WellParked(s) && !ParentMissing(s, tx)
    requires FirstUnknown(s.programs.known, RunPrograms(tx.payload)).None?
    ensures ParentDep(s, tx).txs == [tx] + Waiters(s.parents.waiting, tx.hash)
  {
    ParentDepFree(s, tx);
    OwnShape(s, tx);
  }

  /** In every run, what one event releases for a parent leaves in arrival order. */
  lemma ChildrenLeaveInOrder(s: Pipeline, evs: seq<Event>, ev: Event, key: Hash)
    requires Fresh(s)
    ensures var before := HandleEvents(s, evs).state;
            && (HandleEvent(before, ev).txs != [] ==> HandleEvent(before, ev).txs[0] == ev.tx)
            && InOrderOf(ReleasedChildren(before, ev, key), Received(evs))
  {
    AlwaysWellParked(s, evs);
    EventTakesOnce(HandleEvents(s, evs).state, ev, key);
    ChildrenWaitInOrder(s, evs, key);
    NothingInOrder(Received(evs));
  }

  // ---------------------------------------------------------------- who waits for what

  /** A Run waits for the first program of its workflow that is not known, as the last
      in line there; it passes exactly if there is none. */
  lemma RunWaitsForFirstMissing(s: Pipeline, tx: Tx, i: nat)
    requires tx.payload.Run? && i < |tx.payload.steps| && !s.programs.known.Has(tx.payload.steps[i].program)
    requires forall j :: 0 <= j < i ==> s.programs.known.Has(tx.payload.steps[j].program)
    ensures var r, w := ProgramDep(s, tx), Waiters(ProgramDep(s, tx).state.programs.waiting, tx.payload.steps[i].program);
            r.txs == [] && w != [] && Last(w) == tx
  {
    ParkedOnFirst(s.programs.known, RunPrograms(tx.payload), tx.payload.steps[i].program);
    assert RunPrograms(tx.payload)[i] == tx.payload.steps[i].program;
  }

  lemma RunPasses(s: Pipeline, tx: Tx)
    requires tx.payload.Run?
    requires forall j :: 0 <= j < |tx.payload.steps| ==> s.programs.known.Has(tx.payload.steps[j].program)
    ensures ProgramDep(s, tx) == Outcome(s, [tx])
  {
    FirstUnknownFinds(s.programs.known, RunPrograms(tx.payload));
    assert [tx] + [] == [tx];
  }

  /** Proofs, ProofKeys and Verifications of an unknown parent wait for it, last in line;
      nothing else waits for a parent. */
  lemma ChildWaitsForParent(s: Pipeline, tx: Tx, parent: Hash)
    requires match tx.payload
             case Proof(p, _, _) => p == parent
             case ProofKey(p) => p == parent
             case Verification(p, _, _) => p == parent
             case _ => false
    requires !s.parents.known.Has(parent)
    ensures var r, w := ParentDep(s, tx), Waiters(ParentDep(s, tx).state.parents.waiting, parent);
            r.txs == [] && w != [] && Last(w) == tx
  {
  }

  lemma OthersPass(s: Pipeline, tx: Tx)
    requires WellParked(s) && !tx.payload.Run?
    requires !tx.payload.Proof? && !tx.payload.ProofKey? && !tx.payload.Verification?
    ensures ParentDep(s, tx).txs == [tx] + Waiters(s.parents.waiting, tx.hash)
  {
    PassesFirst(s, tx);
  }

  // ---------------------------------------------------------------- which Runs leave, and in which order

  function IsRun(): Tx -> bool {
    (tx: Tx) => tx.payload.Run?
  }

  /** All programs of the Run are known. */
  function IsReady(known: Known): Tx -> bool {
    (tx: Tx) => FirstUnknown(known, RunPrograms(tx.payload)).None?
  }

  lemma CheckEmitsRun(s: Pipeline, tx: Tx)
    requires WellParked(s)
    ensures Only(IsRun(), ParentDep(s, tx).txs) == Only(IsReady(s.programs.known), Only(IsRun(), [tx]))
  {
    if !ParentMissing(s, tx) {
      var own, children := Own(s, tx).txs, Waiters(s.parents.waiting, tx.hash);
      ParentDepFree(s, tx);
      OwnShape(s, tx);
      OnlyConcat(IsRun(), own, children);
      OnlyNone(IsRun(), children);
      assert [tx][1..] == [];
    }
  }

  /** The Runs that come out of the parent checks are those that go in and are ready, in
      the same order. */
  lemma {:induction false} StageEmitsRuns(s: Pipeline, txs: seq<Tx>)
    requires WellParked(s)
    ensures Only(IsRun(), ParentDeps(s, txs).txs) == Only(IsReady(s.programs.known), Only(IsRun(), txs))
    decreases |txs|
  {
    if txs != [] {
      var first, ready := ParentDep(s, txs[0]), IsReady(s.programs.known);
      ParentDepShape(s, txs[0]);
      CheckEmitsRun(s, txs[0]);
      StageEmitsRuns(first.state, txs[1..]);
      OnlyConcat(IsRun(), first.txs, ParentDeps(first.state, txs[1..]).txs);
      assert txs == [txs[0]] + txs[1..];
      OnlyConcat(IsRun(), [txs[0]], txs[1..]);
      OnlyConcat(ready, Only(IsRun(), [txs[0]]), Only(IsRun(), txs[1..]));
    }
  }

  function WaitersOfBoth(w: Waiting, p: Hash, q: Hash): seq<Tx> {
    Waiters(w, p) + if p == q then [] else Waiters(w, q)
  }

  /** What a Deploy of `p` and `q` releases: the Runs parked on `p`, then those parked on
      `q`, each in the order they stand, as far as no other program of theirs is missing. */
  lemma DeployReleasesInOrder(s: Pipeline, ev: Event, p: Hash, q: Hash)
    requires WellParked(s) && ev.tx.payload == Deploy(p, q)
    ensures Only(IsRun(), HandleEvent(s, ev).txs)
         == Only(IsReady(s.programs.known.Learn(p).Learn(q)), WaitersOfBoth(s.programs.waiting, p, q))
  {
    var r := ProgramDep(s, ev.tx);
    var released := WaitersOfBoth(s.programs.waiting, p, q);
    ProgramDepShape(s, ev.tx);
    DeployTakes(s, ev.tx, p, q);
    StageEmitsRuns(r.state, r.txs);
    OnlyConcat(IsRun(), [ev.tx], released);
    assert Only(IsRun(), [ev.tx]) == [] by {
      OnlyNone(IsRun(), [ev.tx]);
    }
    assert AllRuns(released) by {
      assert AllRuns(r.txs[1..]) && r.txs[1..] == released;
    }
    OnlyAll(IsRun(), released);
    assert [] + released == released;
  }

  lemma DeployTakes(s: Pipeline, deploy: Tx, p: Hash, q: Hash)
    requires deploy.payload == Deploy(p, q)
    ensures var r := ProgramDep(s, deploy);
            && r.txs == [deploy] + WaitersOfBoth(s.programs.waiting, p, q)
            && r.state.programs.known == s.programs.known.Learn(p).Learn(q)
  {
    var s1 := ReleaseOne(s, p);
    assert RunPrograms(deploy.payload) == [] && FirstUnknown(s.programs.known, []) == None;
    assert [p, q][1..] == [q] && [q][1..] == [];
    assert Release(ReleaseOne(s1, q), []) == Outcome(ReleaseOne(s1, q), []);
    assert Waiters(s1.programs.waiting, q) == if p == q then [] else Waiters(s.programs.waiting, q);
    assert Waiters(s1.programs.waiting, q) + [] == Waiters(s1.programs.waiting, q);
    assert Release(s1, [q]) == Outcome(ReleaseOne(s1, q), Waiters(s1.programs.waiting, q));
  }

  // ---------------------------------------------------------------- Runs of one program, by arrival

  /** A Run that names no program but `p`. */
  function IsSingle(p: Hash): Tx -> bool {
    (tx: Tx) => tx.payload.Run? && Elems(RunPrograms(tx.payload)) == {p}
  }

  /** The Runs of `p` alone: those parked on it, then those still to be checked again. */
  ghost function InLine(s: Pipeline, p: Hash, todo: seq<Tx>): seq<Tx> {
    Only(IsSingle(p), Waiters(s.programs.waiting, p)) + Only(IsSingle(p), todo)
  }

  lemma OnlyFirst(p: Hash, tx: Tx, todo: seq<Tx>)
    ensures Only(IsSingle(p), [tx] + todo) == (if IsSingle(p)(tx) then [tx] else []) + Only(IsSingle(p), todo)
  {
    assert ([tx] + todo)[1..] == todo;
  }

  /** A Run of `p` alone can only be parked on `p`. */
  lemma SinglePark(known: Known, tx: Tx, p: Hash)
    requires IsSingle(p)(tx)
    ensures match FirstUnknown(known, RunPrograms(tx.payload))
            case Some(k) => k == p
            case None => true
  {
    FirstUnknownFinds(known, RunPrograms(tx.payload));
    match FirstUnknown(known, RunPrograms(tx.payload))
    case Some(k) => assert k in Elems(RunPrograms(tx.payload));
    case None =>
  }

  /** Parking keeps the line: the entry for `p` may go, the parked Run comes last. */
  lemma ParkInLine(s: Pipeline, to: Hash, tx: Tx, p: Hash)
    requires IsSingle(p)(tx) ==> to == p
    ensures var single, w := IsSingle(p), Waiters(s.programs.waiting, p);
            var w' := Waiters(ParkOnProgram(s, to, tx).programs.waiting, p);
            var x := if single(tx) then [tx] else [];
            Only(single, w') == Only(single, w) + x || Only(single, w') == x
  {
    var single, w := IsSingle(p), Waiters(s.programs.waiting, p);
    var kept := Waiters(Room(s.programs, s.clock, s.ticks).waiting, p);
    var w' := Waiters(ParkOnProgram(s, to, tx).programs.waiting, p);
    assert kept == w || kept == [];
    if to == p {
      assert w' == kept + [tx];
      OnlyConcat(single, kept, [tx]);
      OnlyFirst(p, tx, []);
      assert [tx] + [] == [tx];
    } else {
      assert w' == kept;
    }
    assert Only(single, w) + [] == Only(single, w);
  }

  /** Taking something out of the line, or the whole first part, keeps the order. */
  lemma LineShrinks(a: seq<Tx>, x: seq<Tx>, b: seq<Tx>, received: seq<Tx>)
    requires InOrderOf(a + (x + b), received)
    ensures InOrderOf(a + x + b, received) && InOrderOf(a + b, received) && InOrderOf(x + b, received)
    ensures InOrderOf(b, received)
  {
    assert a + (x + b) == a + x + b;
    CutInOrder(a, x, b);
    InOrderTrans(a + b, a + x + b, received);
    SuffixInOrder(a + x + b, |a|);
    assert (a + x + b)[|a|..] == x + b;
    InOrderTrans(x + b, a + x + b, received);
    SuffixInOrder(x + b, |x|);
    assert (x + b)[|x|..] == b;
    InOrderTrans(b, x + b, received);
  }

  lemma CheckInLine(s: Pipeline, tx: Tx, todo: seq<Tx>, p: Hash, received: seq<Tx>)
    requires WellParked(s) && InOrderOf(InLine(s, p, [tx] + todo), received)
    ensures InOrderOf(InLine(ParentDep(s, tx).state, p, todo), received)
  {
    var single := IsSingle(p);
    var a, x, b := Only(single, Waiters(s.programs.waiting, p)), if single(tx) then [tx] else [], Only(single, todo);
    OnlyFirst(p, tx, todo);
    LineShrinks(a, x, b, received);
    if !ParentMissing(s, tx) {
      ParentDepFree(s, tx);
      OwnShape(s, tx);
      var s0 := DropChildren(s, tx.hash);
      if tx.payload.Run? {
        match FirstUnknown(s.programs.known, RunPrograms(tx.payload)) {
          case Some(k) =>
            if single(tx) {
              SinglePark(s.programs.known, tx, p);
            }
            ParkInLine(s0, k, tx, p);
          case None =>
            assert Own(s, tx).state == Release(s0, []).state == s0;
        }
      }
    }
  }

  lemma {:induction false} StageInLine(s: Pipeline, txs: seq<Tx>, p: Hash, received: seq<Tx>)
    requires WellParked(s) && InOrderOf(InLine(s, p, txs), received)
    ensures InOrderOf(InLine(ParentDeps(s, txs).state, p, []), received)
    decreases |txs|
  {
    if txs != [] {
      var first := ParentDep(s, txs[0]);
      assert txs == [txs[0]] + txs[1..];
      ParentDepShape(s, txs[0]);
      CheckInLine(s, txs[0], txs[1..], p, received);
      StageInLine(first.state, txs[1..], p, received);
    }
  }

  /** Releasing moves Runs from one part of the line to the other. */
  lemma {:induction false} ReleaseInLine(s: Pipeline, ps: seq<Hash>, p: Hash)
    requires WellParked(s)
    ensures var r := Release(s, ps);
            InLine(r.state, p, r.txs) == Only(IsSingle(p), Waiters(s.programs.waiting, p))
    decreases |ps|
  {
    var single := IsSingle(p);
    if ps == [] {
      assert Only(single, Waiters(s.programs.waiting, p)) + [] == Only(single, Waiters(s.programs.waiting, p));
    } else {
      var next, freed := ReleaseOne(s, ps[0]), Waiters(s.programs.waiting, ps[0]);
      var rest := Release(next, ps[1..]);
      ReleaseInLine(next, ps[1..], p);
      OnlyConcat(single, freed, rest.txs);
      if ps[0] == p {
        assert Waiters(next.programs.waiting, p) == [];
        assert [] + (Only(single, freed) + []) == Only(single, freed);
      } else {
        OthersNotSingle(s, ps[0], p);
        assert [] + Only(single, rest.txs) == Only(single, rest.txs);
      }
    }
  }

  lemma OthersNotSingle(s: Pipeline, key: Hash, p: Hash)
    requires WellParked(s) && key != p
    ensures Only(IsSingle(p), Waiters(s.programs.waiting, key)) == []
  {
    var w := Waiters(s.programs.waiting, key);
    forall i | 0 <= i < |w| ensures !IsSingle(p)(w[i]) {
      assert key in Elems(RunPrograms(w[i].payload));
    }
    OnlyNone(IsSingle(p), w);
  }

  lemma EventInLine(s: Pipeline, ev: Event, p: Hash, received: seq<Tx>)
    requires WellParked(s) && InOrderOf(InLine(s, p, []), received)
    ensures InOrderOf(InLine(ProgramDep(s, ev.tx).state, p, ProgramDep(s, ev.tx).txs), received + [ev.tx])
    ensures InOrderOf(InLine(HandleEvent(s, ev).state, p, []), received + [ev.tx])
  {
    var r := ProgramDep(s, ev.tx);
    ProgramDepShape(s, ev.tx);
    ProgramDepInLine(s, ev.tx, p, received);
    StageInLine(r.state, r.txs, p, received + [ev.tx]);
  }

  lemma ProgramDepInLine(s: Pipeline, tx: Tx, p: Hash, received: seq<Tx>)
    requires WellParked(s) && InOrderOf(InLine(s, p, []), received)
    ensures InOrderOf(InLine(ProgramDep(s, tx).state, p, ProgramDep(s, tx).txs), received + [tx])
  {
    var x := if IsSingle(p)(tx) then [tx] else [];
    var a := Only(IsSingle(p), Waiters(s.programs.waiting, p));
    assert InLine(s, p, []) == a + [] == a;
    LastInLine(a, x, received, tx);
    match FirstUnknown(s.programs.known, RunPrograms(tx.payload))
    case Some(k) => ParkedInLine(s, k, tx, p, received);
    case None => PassedInLine(s, tx, p);
  }

  lemma ParkedInLine(s: Pipeline, k: Hash, tx: Tx, p: Hash, received: seq<Tx>)
    requires FirstUnknown(s.programs.known, RunPrograms(tx.payload)) == Some(k)
    requires var x := if IsSingle(p)(tx) then [tx] else [];
             var a := Only(IsSingle(p), Waiters(s.programs.waiting, p));
             InOrderOf(a + x, received + [tx]) && InOrderOf(x, received + [tx])
    ensures InOrderOf(InLine(ParkOnProgram(s, k, tx), p, []), received + [tx])
  {
    if IsSingle(p)(tx) {
      SinglePark(s.programs.known, tx, p);
    }
    ParkInLine(s, k, tx, p);
    var w' := Waiters(ParkOnProgram(s, k, tx).programs.waiting, p);
    assert Only(IsSingle(p), w') + [] == Only(IsSingle(p), w');
  }

  lemma PassedInLine(s: Pipeline, tx: Tx, p: Hash)
    requires WellParked(s)
    ensures var rel := Release(s, DeployPrograms(tx.payload));
            var x := if IsSingle(p)(tx) then [tx] else [];
            InLine(rel.state, p, [tx] + rel.txs) == Only(IsSingle(p), Waiters(s.programs.waiting, p)) + x
  {
    var rel := Release(s, DeployPrograms(tx.payload));
    var a := Only(IsSingle(p), Waiters(s.programs.waiting, p));
    ReleaseInLine(s, DeployPrograms(tx.payload), p);
    OnlyFirst(p, tx, rel.txs);
    if IsSingle(p)(tx) {
      assert rel == Outcome(s, []);
      assert [tx] + [] == [tx];
    } else {
      assert [] + Only(IsSingle(p), rel.txs) == Only(IsSingle(p), rel.txs) && a + [] == a;
    }
  }

  lemma LastInLine(a: seq<Tx>, x: seq<Tx>, received: seq<Tx>, tx: Tx)
    requires InOrderOf(a, received) && (x == [] || x == [tx])
    ensures InOrderOf(a, received + [tx]) && InOrderOf(a + x, received + [tx]) && InOrderOf(x, received + [tx])
  {
    InOrderGrows(a, received, tx);
    assert a + [] == a;
    SuffixInOrder(a + x, |a|);
    assert (a + x)[|a|..] == x;
    InOrderTrans(x, a + x, received + [tx]);
  }

  lemma {:induction false} RunInLine(s: Pipeline, evs: seq<Event>, p: Hash)
    requires Fresh(s)
    ensures InOrderOf(InLine(HandleEvents(s, evs).state, p, []), Received(evs))
  {
    if evs == [] {
      assert InLine(s, p, []) == [];
      NothingInOrder(Received(evs));
    } else {
      var before := HandleEvents(s, DropLast(evs)).state;
      RunInLine(s, DropLast(evs), p);
      AlwaysWellParked(s, DropLast(evs));
      EventInLine(before, Last(evs), p, Received(DropLast(evs)));
      ReceivedOneMore(evs);
    }
  }

  /** In every run, for every capacity and every pattern of failing saves: the Runs of one
      program alone wait in the order they arrived, even if they had to wait again. */
  lemma RunsWaitInOrder(s: Pipeline, evs: seq<Event>, p: Hash)
    requires Fresh(s)
    ensures InOrderOf(Only(IsSingle(p), Waiters(HandleEvents(s, evs).state.programs.waiting, p)), Received(evs))
  {
    var w := Waiters(HandleEvents(s, evs).state.programs.waiting, p);
    RunInLine(s, evs, p);
    assert Only(IsSingle(p), w) + [] == Only(IsSingle(p), w);
  }

  lemma SinglesLeave(out: seq<Tx>, todo: seq<Tx>, known: Known, p: Hash)
    requires Only(IsRun(), out) == Only(IsReady(known), Only(IsRun(), todo))
    ensures Only(IsSingle(p), out) == Only(IsReady(known), Only(IsSingle(p), todo))
  {
    SinglesAreRuns(out, p);
    SinglesAreRuns(todo, p);
    OnlyCommutes(IsSingle(p), IsReady(known), Only(IsRun(), todo));
  }

  lemma {:induction false} SinglesAreRuns(txs: seq<Tx>, p: Hash)
    ensures Only(IsSingle(p), Only(IsRun(), txs)) == Only(IsSingle(p), txs)
  {
    if txs != [] {
      SinglesAreRuns(txs[1..], p);
      OnlyConcat(IsSingle(p), if IsRun()(txs[0]) then [txs[0]] else [], Only(IsRun(), txs[1..]));
    }
  }

  /** In every run, the Runs of one program alone that one event lets go leave in the
      order they arrived. */
  lemma RunsLeaveInOrder(s: Pipeline, evs: seq<Event>, ev: Event, p: Hash)
    requires Fresh(s)
    ensures InOrderOf(Only(IsSingle(p), HandleEvent(HandleEvents(s, evs).state, ev).txs), Received(evs) + [ev.tx])
  {
    var before, single, received := HandleEvents(s, evs).state, IsSingle(p), Received(evs) + [ev.tx];
    var r := ProgramDep(before, ev.tx);
    AlwaysWellParked(s, evs);
    RunInLine(s, evs, p);
    EventInLine(before, ev, p, Received(evs));
    ProgramDepShape(before, ev.tx);
    StageEmitsRuns(r.state, r.txs);
    SinglesLeave(ParentDeps(r.state, r.txs).txs, r.txs, r.state.programs.known, p);
    LineLeaves(r, p, received);
  }

  lemma LineLeaves(r: Outcome, p: Hash, received: seq<Tx>)
    requires InOrderOf(InLine(r.state, p, r.txs), received)
    ensures InOrderOf(Only(IsReady(r.state.programs.known), Only(IsSingle(p), r.txs)), received)
  {
    var a, b, ready := Only(IsSingle(p), Waiters(r.state.programs.waiting, p)), Only(IsSingle(p), r.txs), IsReady(r.state.programs.known);
    SuffixInOrder(a + b, |a|);
    assert (a + b)[|a|..] == b;
    InOrderTrans(b, a + b, received);
    OnlyInOrder(ready, b);
    InOrderTrans(Only(ready, b), b, received);
  }
}
