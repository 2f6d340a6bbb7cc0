/** No transaction is lost or duplicated on its way through the pipeline: whatever
    came in was handed on, is still parked, or was evicted for its age. Holds for
    every kind of `Known`, every capacity and every pattern of failing saves. */
module AdmissionConservation {
  import opened Basics
  import opened Transactions
  import opened AdmissionModel
  import opened MapSums

  /** How many copies of `t` the pipeline still answers for. */
  ghost function Held(s: Pipeline, t: Tx): nat {
    Load(s.programs, t) + Load(s.parents, t)
  }

  ghost function Load(c: Cache, t: Tx): nat {
    SumBy(CopiesIn(t), c.waiting) + c.evicted[t]
  }

  ghost function CopiesIn(t: Tx): Entry -> nat {
    (e: Entry) => Copies(e.txs, t)
  }

  ghost function Copies(txs: seq<Tx>, t: Tx): nat {
    multiset(txs)[t]
  }

  lemma CopiesConcat(a: seq<Tx>, b: seq<Tx>, t: Tx)
    ensures Copies(a + b, t) == Copies(a, t) + Copies(b, t)
  {
    assert multiset(a + b) == multiset(a) + multiset(b);
  }

  /** What is parked, counted copy by copy. */
  lemma {:induction false} AllWaitingCount(w: Waiting, t: Tx)
    ensures AllWaiting(w)[t] == SumBy(CopiesIn(t), w)
    decreases |w|
  {
    if w != map[] {
      var k :| k in w && AllWaiting(w) == multiset(w[k].txs) + AllWaiting(w - {k});
      AllWaitingCount(w - {k}, t);
      SumBySplit(CopiesIn(t), w, k);
    }
  }

  lemma WaitersCount(w: Waiting, k: Hash, t: Tx)
    ensures At(CopiesIn(t), w, k) == Copies(Waiters(w, k), t)
  {
  }

  lemma EvictHolds(c: Cache, now: int, t: Tx)
    ensures Load(Evict(c, now), t) == Load(c, t)
  {
    var aged := map k | k in c.waiting && Expired(c.waiting[k], c.limits, now) :: c.waiting[k];
    assert c.waiting == Evict(c, now).waiting + aged;
    SumByUnion(CopiesIn(t), Evict(c, now).waiting, aged);
    AllWaitingCount(aged, t);
  }

  lemma RoomHolds(c: Cache, clock: nat -> int, ticks: nat, t: Tx)
    ensures Load(Room(c, clock, ticks), t) == Load(c, t)
  {
    if Full(c) {
      EvictHolds(c, clock(ticks), t);
    }
  }

  lemma JoinHolds(c: Cache, key: Hash, tx: Tx, now: int, t: Tx)
    ensures Load(Join(c, key, tx, now), t) == Load(c, t) + Copies([tx], t)
  {
    var e := if key in c.waiting then c.waiting[key] else Entry([], now);
    SumBySet(CopiesIn(t), c.waiting, key, Entry(e.txs + [tx], e.since));
    WaitersCount(c.waiting, key, t);
    CopiesConcat(e.txs, [tx], t);
  }

  lemma ParkHolds(c: Cache, key: Hash, tx: Tx, clock: nat -> int, ticks: nat, t: Tx)
    ensures Load(Park(c, key, tx, clock, ticks), t) == Load(c, t) + Copies([tx], t)
  {
    RoomHolds(c, clock, ticks, t);
    JoinHolds(Room(c, clock, ticks), key, tx, clock(ticks + ParkTicks(c) - 1), t);
  }

  lemma {:induction false} ReleaseHolds(s: Pipeline, ps: seq<Hash>, t: Tx)
    ensures var r := Release(s, ps);
            Held(r.state, t) + Copies(r.txs, t) == Held(s, t)
    decreases |ps|
  {
    if ps != [] {
      var rest := Release(ReleaseOne(s, ps[0]), ps[1..]);
      ReleaseHolds(ReleaseOne(s, ps[0]), ps[1..], t);
      SumByRemove(CopiesIn(t), s.programs.waiting, ps[0]);
      WaitersCount(s.programs.waiting, ps[0], t);
      CopiesConcat(Waiters(s.programs.waiting, ps[0]), rest.txs, t);
    }
  }

  lemma ProgramDepHolds(s: Pipeline, tx: Tx, t: Tx)
    ensures var r := ProgramDep(s, tx);
            Held(r.state, t) + Copies(r.txs, t) == Held(s, t) + Copies([tx], t)
  {
    match FirstUnknown(s.programs.known, RunPrograms(tx.payload))
    case Some(p) =>
      ParkHolds(s.programs, p, tx, s.clock, s.ticks, t);
    case None =>
      ReleaseHolds(s, DeployPrograms(tx.payload), t);
      CopiesConcat([tx], Release(s, DeployPrograms(tx.payload)).txs, t);
  }

  lemma RecheckHolds(s: Pipeline, tx: Tx, t: Tx)
    ensures var r := Recheck(s, tx);
            Held(r.state, t) + Copies(r.txs, t) == Held(s, t) + Copies([tx], t)
  {
    if tx.payload.Run? {
      ProgramDepHolds(s, tx, t);
    }
  }

  lemma {:induction false} RevalidateHolds(s: Pipeline, txs: seq<Tx>, t: Tx)
    ensures var r := Revalidate(s, txs);
            Held(r.state, t) + Copies(r.txs, t) == Held(s, t) + Copies(txs, t)
    decreases |txs|
  {
    if txs != [] {
      var first := Recheck(s, txs[0]);
      RecheckHolds(s, txs[0], t);
      RevalidateHolds(first.state, txs[1..], t);
      CopiesConcat(first.txs, Revalidate(first.state, txs[1..]).txs, t);
      CopiesConcat([txs[0]], txs[1..], t);
      assert txs == [txs[0]] + txs[1..];
    }
  }

  lemma ParentDepHolds(s: Pipeline, tx: Tx, t: Tx)
    ensures var r := ParentDep(s, tx);
            Held(r.state, t) + Copies(r.txs, t) == Held(s, t) + Copies([tx], t)
  {
    if ParentMissing(s, tx) {
      ParkHolds(s.parents, ParentOf(tx.payload).value, tx, s.clock, s.ticks, t);
    } else {
      var children := Waiters(s.parents.waiting, tx.hash);
      SumByRemove(CopiesIn(t), s.parents.waiting, tx.hash);
      WaitersCount(s.parents.waiting, tx.hash, t);
      RevalidateHolds(DropChildren(s, tx.hash), [tx] + children, t);
      CopiesConcat([tx], children, t);
    }
  }

  lemma {:induction false} ParentDepsHold(s: Pipeline, txs: seq<Tx>, t: Tx)
    ensures var r := ParentDeps(s, txs);
            Held(r.state, t) + Copies(r.txs, t) == Held(s, t) + Copies(txs, t)
    decreases |txs|
  {
    if txs != [] {
      var first := ParentDep(s, txs[0]);
      ParentDepHolds(s, txs[0], t);
      ParentDepsHold(first.state, txs[1..], t);
      CopiesConcat(first.txs, ParentDeps(first.state, txs[1..]).txs, t);
      CopiesConcat([txs[0]], txs[1..], t);
      assert txs == [txs[0]] + txs[1..];
    }
  }

  lemma HandleEventHolds(s: Pipeline, ev: Event, t: Tx)
    ensures var r := HandleEvent(s, ev);
            Held(r.state, t) + Copies(r.txs, t) == Held(s, t) + Copies([ev.tx], t)
  {
    ProgramDepHolds(s, ev.tx, t);
    var r := ProgramDep(s, ev.tx);
    ParentDepsHold(r.state, r.txs, t);
  }

  lemma ReceivedLast(evs: seq<Event>, t: Tx)
    requires evs != []
    ensures Copies(Received(evs), t) == Copies(Received(DropLast(evs)), t) + Copies([Last(evs).tx], t)
  {
    CopiesConcat(Received(DropLast(evs)), [Last(evs).tx], t);
    assert Received(evs) == Received(DropLast(evs)) + [Last(evs).tx];
  }

  lemma {:induction false} RunHolds(s: Pipeline, evs: seq<Event>, t: Tx)
    ensures var r := HandleEvents(s, evs);
            Copies(r.txs, t) + Held(r.state, t) == Held(s, t) + Copies(Received(evs), t)
  {
    if evs != [] {
      var before := HandleEvents(s, DropLast(evs));
      RunHolds(s, DropLast(evs), t);
      HandleEventHolds(before.state, Last(evs), t);
      CopiesConcat(before.txs, HandleEvent(before.state, Last(evs)).txs, t);
      ReceivedLast(evs, t);
    } else {
      assert Received(evs) == [];
    }
  }

  /** Conservation over every run from a fresh start:
      received = handed on + parked + evicted, as multisets. */
  lemma Conservation(s: Pipeline, evs: seq<Event>)
    requires Fresh(s)
    ensures var r := HandleEvents(s, evs);
            multiset(Received(evs)) ==
            multiset(r.txs)
            + AllWaiting(r.state.programs.waiting) + AllWaiting(r.state.parents.waiting)
            + r.state.programs.evicted + r.state.parents.evicted
  {
    var r := HandleEvents(s, evs);
    var rhs := multiset(r.txs)
               + AllWaiting(r.state.programs.waiting) + AllWaiting(r.state.parents.waiting)
               + r.state.programs.evicted + r.state.parents.evicted;
    forall t ensures multiset(Received(evs))[t] == rhs[t] {
      RunHolds(s, evs, t);
      AllWaitingCount(r.state.programs.waiting, t);
      AllWaitingCount(r.state.parents.waiting, t);
    }
  }
}
