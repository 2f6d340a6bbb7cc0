/** What every scheduler step keeps, for any sequence of operations and any answers
    of the world. */
module SchedulerInvariants {
  import opened Basics
  import opened Transactions
  import opened VmProvider
  import opened MapSums
  import opened SchedulerModel

  // ---------------------------------------------------------------- the invariants

  /** Free resources plus what live handles hold make up the whole machine. */
  ghost predicate Balanced(s: Sched, total: Resources) {
    forall axis :: Amount(axis, s.host.available) + SumBy(HeldOn(axis), s.vms) == Amount(axis, total)
  }

  /** The register matches the allocated ids, and every live handle is registered
      under the transaction it is kept for. */
  ghost predicate Identified(s: Sched) {
    Consistent(s.host.provider) && forall tx :: tx in s.vms ==> Names(s.host.provider, s.vms[tx].cid, tx)
  }

  ghost predicate Names(p: Provider, cid: nat, tx: Hash) {
    cid in p.registry && p.registry[cid].tx == tx
  }

  /** Queues and running tasks are kept under the task's own transaction. */
  ghost predicate Keyed(s: Sched) {
    && (forall tx :: tx in s.queues ==> AllFor(s.queues[tx], tx))
    && (forall tx :: tx in s.running ==> s.running[tx].tx == tx)
  }

  ghost predicate AllFor(q: seq<Task>, tx: Hash) {
    forall i :: 0 <= i < |q| ==> q[i].tx == tx
  }

  ghost function InQueue(t: Task): seq<Task> -> nat {
    (q: seq<Task>) => multiset(q)[t]
  }

  /** Every copy of a task is queued, running, submitted, reaped or dropped; every
      copy handed out is running, submitted or reaped. */
  ghost predicate Accounted(s: Sched, t: Task) {
    && s.ledger.enqueued[t] == SumBy(InQueue(t), s.queues) + SumBy(Is(t), s.running)
                               + s.ledger.submitted[t] + s.ledger.reaped[t] + s.ledger.dropped[t]
    && s.ledger.handedOut[t] == SumBy(Is(t), s.running) + s.ledger.submitted[t] + s.ledger.reaped[t]
  }

  /** A property of single tasks that holds of all that are queued or running. */
  ghost predicate EveryTask(s: Sched, good: Task -> bool) {
    && (forall tx :: tx in s.queues ==> AllGood(s.queues[tx], good))
    && (forall tx :: tx in s.running ==> good(s.running[tx]))
  }

  ghost predicate AllGood(q: seq<Task>, good: Task -> bool) {
    forall i :: 0 <= i < |q| ==> good(q[i])
  }

  // ---------------------------------------------------------------- starting and stopping

  lemma StartKeeps(h: Host, tx: Hash, program: Hash, a: Attempt)
    requires Consistent(h.provider)
    ensures var (h', r) := StartProgram(h, tx, program, a);
            && Consistent(h'.provider)
            && (forall c :: c in h.provider.registry ==>
                 c in h'.provider.registry && h'.provider.registry[c] == h.provider.registry[c])
            && (forall c :: c in h'.provider.registry && c !in h.provider.registry ==>
                 h'.provider.registry[c] == VmEntry(tx, program))
            && (!r.Started? ==> h'.available == h.available)
            && (r.Started? ==>
                 && r.handle.alloc.Fits(h.available) && h'.available == h.available.Minus(r.handle.alloc)
                 && r.handle.cid !in h.provider.registry && Names(h'.provider, r.handle.cid, tx))
  {
  }

  lemma InstallBalances(s: Sched, tx: Hash, handle: Handle, total: Resources)
    requires forall axis :: Amount(axis, s.host.available) + Amount(axis, handle.alloc) + SumBy(HeldOn(axis), s.vms)
                            == Amount(axis, total)
    ensures Balanced(Install(s, tx, handle), total)
  {
    forall axis
      ensures var s' := Install(s, tx, handle);
              Amount(axis, s'.host.available) + SumBy(HeldOn(axis), s'.vms) == Amount(axis, total)
    {
      SumBySet(HeldOn(axis), s.vms, tx, handle);
    }
  }

  lemma StopBalances(s: Sched, tx: Hash, killed: bool, total: Resources)
    requires Balanced(s, total)
    ensures Balanced(StopVmOf(s, tx, killed), total)
  {
    forall axis
      ensures var s' := StopVmOf(s, tx, killed);
              Amount(axis, s'.host.available) + SumBy(HeldOn(axis), s'.vms) == Amount(axis, total)
    {
      SumByRemove(HeldOn(axis), s.vms, tx);
    }
  }

  /** Two live handles never share a VM, so stopping one leaves the others named. */
  lemma StopIdentifies(s: Sched, tx: Hash, killed: bool)
    requires Identified(s)
    ensures Identified(StopVmOf(s, tx, killed))
  {
  }

  lemma StartInstallKeeps(s: Sched, tx: Hash, program: Hash, a: Attempt, total: Resources)
    requires Balanced(s, total) && Identified(s)
    ensures var (host, r) := StartProgram(s.host, tx, program, a);
            var next := s.(host := host);
            && (r.Started? ==> Balanced(Install(next, tx, r.handle), total) && Identified(Install(next, tx, r.handle)))
            && (!r.Started? ==> Balanced(next, total) && Identified(next))
  {
    StartKeeps(s.host, tx, program, a);
    var (host, r) := StartProgram(s.host, tx, program, a);
    if r.Started? {
      InstallBalances(s.(host := host), tx, r.handle, total);
    }
  }

  // ---------------------------------------------------------------- resources and identity

  lemma EnqueueKeepsHost(s: Sched, task: Task, a: Attempt, total: Resources)
    requires Balanced(s, total) && Identified(s)
    ensures Balanced(Enqueue(s, task, a), total) && Identified(Enqueue(s, task, a))
  {
    StartInstallKeeps(Queued(s, task), task.tx, task.program, a, total);
  }

  lemma {:induction false} PendingKeepsHost(s: Sched, todo: seq<(Hash, Hash)>, attempts: nat -> Attempt, i: nat, total: Resources)
    requires Balanced(s, total) && Identified(s)
    ensures Balanced(PendingPass(s, todo, attempts, i), total) && Identified(PendingPass(s, todo, attempts, i))
    decreases |todo|
  {
    if todo != [] {
      var (tx, program) := todo[0];
      var popped := if s.pending == [] then s else s.(pending := s.pending[1..]);
      StartInstallKeeps(popped, tx, program, attempts(i), total);
      var (host, r) := StartProgram(popped.host, tx, program, attempts(i));
      if r.Started? {
        PendingKeepsHost(Install(popped.(host := host), tx, r.handle), todo[1..], attempts, i + 1, total);
      }
    }
  }

  lemma WithoutBalances(s: Sched, tasks: set<Hash>, stopped: set<Hash>, killed: Hash -> bool, total: Resources)
    requires Balanced(s, total)
    ensures Balanced(Without(s, tasks, stopped, killed), total)
  {
    var gone := Restrict(s.vms, stopped);
    forall axis
      ensures var s' := Without(s, tasks, stopped, killed);
              Amount(axis, s'.host.available) + SumBy(HeldOn(axis), s'.vms) == Amount(axis, total)
    {
      RestrictPartition(HeldOn(axis), s.vms, stopped);
      AmountPlus(axis, s.host.available, Total(gone));
      AmountTotal(axis, gone);
    }
  }

  lemma RestrictPartition<V>(f: V -> nat, m: map<Hash, V>, keys: set<Hash>)
    ensures SumBy(f, m) == SumBy(f, Restrict(m, keys)) + SumBy(f, m - keys)
  {
    assert m == Restrict(m, keys) + (m - keys);
    SumByUnion(f, Restrict(m, keys), m - keys);
  }

  lemma AmountPlus(axis: Axis, a: Resources, b: Resources)
    ensures Amount(axis, a.Plus(b)) == Amount(axis, a) + Amount(axis, b)
  {
  }

  lemma AmountTotal(axis: Axis, vms: map<Hash, Handle>)
    ensures Amount(axis, Total(vms)) == SumBy(HeldOn(axis), vms)
  {
  }

  lemma WithoutIdentifies(s: Sched, tasks: set<Hash>, stopped: set<Hash>, killed: Hash -> bool)
    requires Identified(s)
    ensures Identified(Without(s, tasks, stopped, killed))
  {
    var s' := Without(s, tasks, stopped, killed);
    var cids := KilledCids(Restrict(s.vms, stopped), killed);
    forall tx | tx in s'.vms ensures Names(s'.host.provider, s'.vms[tx].cid, tx) {
      assert Names(s.host.provider, s.vms[tx].cid, tx);
      forall other | other in Restrict(s.vms, stopped) ensures s.vms[other].cid != s.vms[tx].cid {
        assert Names(s.host.provider, s.vms[other].cid, other);
      }
      assert s.vms[tx].cid !in cids;
    }
  }

  lemma ApplyKeepsHost(s: Sched, op: Op, total: Resources)
    requires Balanced(s, total) && Identified(s)
    ensures Balanced(Apply(s, op), total) && Identified(Apply(s, op))
  {
    match op
    case EnqueueOp(task, attempt) => EnqueueKeepsHost(s, task, attempt, total);
    case PendingOp(attempts) => PendingKeepsHost(s, s.pending, attempts, 0, total);
    case RequestOp(tx, killed) =>
      StopBalances(s, tx, killed, total);
      StopIdentifies(s, tx, killed);
    case SubmitOp(tx, _, _, killed) =>
      if tx in s.running {
        StopBalances(Finished(s, tx), tx, killed, total);
        StopIdentifies(Finished(s, tx), tx, killed);
      }
    case ReapOp(o) =>
      WithoutBalances(s, ZombieTasks(s, o), DoomedVms(s, o), o.killed, total);
      WithoutIdentifies(s, ZombieTasks(s, o), DoomedVms(s, o), o.killed);
  }

  lemma {:induction false} HostSafe(total: Resources, ops: seq<Op>)
    ensures Balanced(ApplyAll(Initial(total), ops), total) && Identified(ApplyAll(Initial(total), ops))
  {
    if ops != [] {
      HostSafe(total, DropLast(ops));
      ApplyKeepsHost(ApplyAll(Initial(total), DropLast(ops)), Last(ops), total);
    }
  }

  /** Resource conservation over every run: nothing leaks and nothing is freed twice,
      so what is free never exceeds the machine and a request that fits can always be
      subtracted. */
  lemma ResourcesConserved(total: Resources, ops: seq<Op>)
    ensures var s := ApplyAll(Initial(total), ops);
            && s.host.available.Plus(Total(s.vms)) == total
            && s.host.available.Fits(total)
  {
    HostSafe(total, ops);
    var s := ApplyAll(Initial(total), ops);
    assert Amount(Mem, s.host.available) + SumBy(HeldOn(Mem), s.vms) == Amount(Mem, total);
    assert Amount(Cpus, s.host.available) + SumBy(HeldOn(Cpus), s.vms) == Amount(Cpus, total);
    assert Amount(Gpus, s.host.available) + SumBy(HeldOn(Gpus), s.vms) == Amount(Gpus, total);
  }

  /** With one GPU configured, at most one live handle holds it. */
  lemma OneGpuHolder(total: Resources, ops: seq<Op>, tx1: Hash, tx2: Hash)
    requires total.gpus <= 1
    requires var s := ApplyAll(Initial(total), ops);
             tx1 in s.vms && tx2 in s.vms && s.vms[tx1].alloc.gpus > 0 && s.vms[tx2].alloc.gpus > 0
    ensures tx1 == tx2
  {
    HostSafe(total, ops);
    var s := ApplyAll(Initial(total), ops);
    assert Amount(Gpus, s.host.available) + SumBy(HeldOn(Gpus), s.vms) == Amount(Gpus, total);
    if tx1 != tx2 {
      SumByTwo(HeldOn(Gpus), s.vms, tx1, tx2);
    }
  }

  /** VM identity in every reachable state: a live handle's id is registered under the
      handle's own transaction and no two live handles share an id. So a VM that is
      stopped is always found, and a request from it is answered for its transaction. */
  lemma VmsIdentified(total: Resources, ops: seq<Op>)
    ensures var s := ApplyAll(Initial(total), ops);
            && s.host.provider.cids == s.host.provider.registry.Keys
            && (forall tx :: tx in s.vms ==> Names(s.host.provider, s.vms[tx].cid, tx))
            && (forall a, b :: a in s.vms && b in s.vms && a != b ==> s.vms[a].cid != s.vms[b].cid)
  {
    HostSafe(total, ops);
    var s := ApplyAll(Initial(total), ops);
    forall a, b | a in s.vms && b in s.vms && a != b ensures s.vms[a].cid != s.vms[b].cid {
      assert Names(s.host.provider, s.vms[a].cid, a) && Names(s.host.provider, s.vms[b].cid, b);
    }
  }
}
