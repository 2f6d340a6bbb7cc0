/** The life of a task, whose program it runs, and what reaping leaves of it. */
module SchedulerTasks {
  import opened Basics
  import opened Transactions
  import opened VmProvider
  import opened MapSums
  import opened SchedulerModel
  import opened SchedulerInvariants

  // ---------------------------------------------------------------- task accounting

  lemma MultisetConcat(q: seq<Task>, r: seq<Task>, t: Task)
    ensures multiset(q + r)[t] == multiset(q)[t] + multiset(r)[t]
  {
    assert multiset(q + r) == multiset(q) + multiset(r);
  }

  lemma QueuedKeeps(s: Sched, task: Task, t: Task)
    requires Keyed(s) && Accounted(s, t)
    ensures Accounted(Queued(s, task), t)
  {
    var q := QueueOf(s, task.tx);
    SumBySet(InQueue(t), s.queues, task.tx, q + [task]);
    MultisetConcat(q, [task], t);
  }

  lemma QueueDroppedKeeps(s: Sched, tx: Hash, t: Task)
    requires Keyed(s) && Accounted(s, t)
    ensures Accounted(QueueDropped(s, tx), t)
  {
    SumByRemove(InQueue(t), s.queues, tx);
  }

  /** Moving handles and pending programs about leaves tasks alone. */
  ghost predicate SameTasks(a: Sched, b: Sched) {
    a.queues == b.queues && a.running == b.running && a.ledger == b.ledger
  }

  lemma {:induction false} PendingKeepsTasks(s: Sched, todo: seq<(Hash, Hash)>, attempts: nat -> Attempt, i: nat)
    ensures SameTasks(PendingPass(s, todo, attempts, i), s)
    decreases |todo|
  {
    if todo != [] {
      var (tx, program) := todo[0];
      var popped := if s.pending == [] then s else s.(pending := s.pending[1..]);
      var (host, r) := StartProgram(popped.host, tx, program, attempts(i));
      if r.Started? {
        PendingKeepsTasks(Install(popped.(host := host), tx, r.handle), todo[1..], attempts, i + 1);
      }
    }
  }

  lemma EnqueueKeepsTasks(s: Sched, task: Task, a: Attempt, t: Task)
    requires Keyed(s) && Accounted(s, t)
    ensures Accounted(Enqueue(s, task, a), t)
  {
    QueuedKeeps(s, task, t);
    QueueDroppedKeeps(Queued(s, task), task.tx, t);
    EnqueueTasks(s, task, a);
  }

  /** As far as tasks go, enqueueing queues the task or drops its whole queue. */
  lemma EnqueueTasks(s: Sched, task: Task, a: Attempt)
    ensures var q := Queued(s, task);
            || SameTasks(Enqueue(s, task, a), q)
            || SameTasks(Enqueue(s, task, a), QueueDropped(q, task.tx))
  {
  }

  lemma RequestKeepsTasks(s: Sched, tx: Hash, killed: bool, t: Task)
    requires Keyed(s) && Accounted(s, t)
    ensures Accounted(GetPendingTask(s, tx, killed), t)
  {
    if tx !in s.running && QueueOf(s, tx) != [] {
      var q := s.queues[tx];
      assert q[0].tx == tx;
      SumBySet(InQueue(t), s.queues, tx, q[1..]);
      MultisetConcat([q[0]], q[1..], t);
      assert q == [q[0]] + q[1..];
      SumBySet(Is(t), s.running, tx, q[0]);
    }
  }

  lemma SubmitKeepsTasks(s: Sched, tx: Hash, result: VmResult, delivered: bool, killed: bool, t: Task)
    requires Keyed(s) && Accounted(s, t)
    ensures Accounted(SubmitResult(s, tx, result, delivered, killed), t)
  {
    SubmitTasks(s, tx, result, delivered, killed);
    if tx in s.running {
      FinishedKeeps(s, tx, t);
    }
  }

  lemma SubmitTasks(s: Sched, tx: Hash, result: VmResult, delivered: bool, killed: bool)
    ensures SameTasks(SubmitResult(s, tx, result, delivered, killed), if tx in s.running then Finished(s, tx) else s)
  {
  }

  lemma SubmitKeepsKeyed(s: Sched, tx: Hash, result: VmResult, delivered: bool, killed: bool)
    requires Keyed(s)
    ensures Keyed(SubmitResult(s, tx, result, delivered, killed))
  {
    SubmitTasks(s, tx, result, delivered, killed);
  }

  lemma FinishedKeeps(s: Sched, tx: Hash, t: Task)
    requires Accounted(s, t) && tx in s.running
    ensures Accounted(Finished(s, tx), t)
  {
    SumByRemove(Is(t), s.running, tx);
  }

  lemma ReapKeepsTasks(s: Sched, o: Observation, t: Task)
    requires Keyed(s) && Accounted(s, t)
    ensures Accounted(Reap(s, o), t)
  {
    var tasks := ZombieTasks(s, o);
    RestrictPartition(Is(t), s.running, tasks);
    BagCount(Restrict(s.running, tasks), t);
  }

  lemma ReapKeepsKeyed(s: Sched, o: Observation)
    requires Keyed(s)
    ensures Keyed(Reap(s, o))
  {
  }

  lemma ApplyKeepsKeyed(s: Sched, op: Op)
    requires Keyed(s)
    ensures Keyed(Apply(s, op))
  {
    match op
    case EnqueueOp(task, attempt) =>
      assert Keyed(Queued(s, task));
      EnqueueTasks(s, task, attempt);
    case PendingOp(attempts) => PendingKeepsTasks(s, s.pending, attempts, 0);
    case RequestOp(tx, killed) =>
    case SubmitOp(tx, result, delivered, killed) => SubmitKeepsKeyed(s, tx, result, delivered, killed);
    case ReapOp(o) =>
  }

  lemma ApplyKeepsTasks(s: Sched, op: Op, t: Task)
    requires Keyed(s) && Accounted(s, t)
    ensures Accounted(Apply(s, op), t)
  {
    match op
    case EnqueueOp(task, attempt) => EnqueueKeepsTasks(s, task, attempt, t);
    case PendingOp(attempts) => PendingKeepsTasks(s, s.pending, attempts, 0);
    case RequestOp(tx, killed) => RequestKeepsTasks(s, tx, killed, t);
    case SubmitOp(tx, result, delivered, killed) => SubmitKeepsTasks(s, tx, result, delivered, killed, t);
    case ReapOp(o) => ReapKeepsTasks(s, o, t);
  }

  /** Task life cycle over every run: each copy of an enqueued task is in exactly one
      of the five places, and tasks are kept under their own transaction. */
  lemma {:induction false} TasksAccounted(total: Resources, ops: seq<Op>, t: Task)
    ensures Keyed(ApplyAll(Initial(total), ops)) && Accounted(ApplyAll(Initial(total), ops), t)
  {
    if ops != [] {
      TasksAccounted(total, DropLast(ops), t);
      ApplyKeepsKeyed(ApplyAll(Initial(total), DropLast(ops)), Last(ops));
      ApplyKeepsTasks(ApplyAll(Initial(total), DropLast(ops)), Last(ops), t);
    }
  }

  /** A task that is handed out replaces no running task, and there are never more
      results than tasks handed out. */
  lemma HandingOutIsSafe(total: Resources, ops: seq<Op>, tx: Hash)
    ensures var s := ApplyAll(Initial(total), ops);
            && (Answer(s, tx).Some? ==> Answer(s, tx).value.tx == tx && tx !in s.running)
            && s.ledger.submitted + s.ledger.reaped <= s.ledger.handedOut <= s.ledger.enqueued
  {
    var s := ApplyAll(Initial(total), ops);
    forall t ensures s.ledger.submitted[t] + s.ledger.reaped[t] <= s.ledger.handedOut[t] <= s.ledger.enqueued[t] {
      TasksAccounted(total, ops, t);
    }
    if Answer(s, tx).Some? {
      TasksAccounted(total, ops, s.queues[tx][0]);
    }
  }

  // ---------------------------------------------------------------- properties of tasks

  ghost predicate AllEnqueued(ops: seq<Op>, good: Task -> bool) {
    forall i :: 0 <= i < |ops| && ops[i].EnqueueOp? ==> good(ops[i].task)
  }

  lemma ApplyKeepsGood(s: Sched, op: Op, good: Task -> bool)
    requires EveryTask(s, good) && (op.EnqueueOp? ==> good(op.task))
    ensures EveryTask(Apply(s, op), good)
  {
    match op
    case EnqueueOp(task, attempt) =>
      assert AllGood(QueueOf(s, task.tx), good);
      assert EveryTask(Queued(s, task), good);
      EnqueueTasks(s, task, attempt);
    case PendingOp(attempts) => PendingKeepsTasks(s, s.pending, attempts, 0);
    case RequestOp(tx, killed) =>
      if tx !in s.running && QueueOf(s, tx) != [] {
        assert AllGood(s.queues[tx], good);
      }
    case SubmitOp(tx, result, delivered, killed) => SubmitTasks(s, tx, result, delivered, killed);
    case ReapOp(o) =>
  }

  lemma {:induction false} GoodForever(total: Resources, ops: seq<Op>, good: Task -> bool)
    requires AllEnqueued(ops, good)
    ensures EveryTask(ApplyAll(Initial(total), ops), good)
  {
    if ops != [] {
      GoodForever(total, DropLast(ops), good);
      ApplyKeepsGood(ApplyAll(Initial(total), DropLast(ops)), Last(ops), good);
    }
  }

  /** If only proving and verifying tasks are enqueued, every result of a running
      task makes a transaction: the unfinished and impossible branches are dead. */
  lemma EveryResultMakesATx(total: Resources, ops: seq<Op>, tx: Hash, program: Hash, files: seq<string>)
    requires AllEnqueued(ops, t => Doable(t))
    ensures var s := ApplyAll(Initial(total), ops);
            && (tx in s.running ==> ResultPayload(s.running[tx], program, files).Some?)
            && forall result, delivered, killed :: ReplyTo(s, tx, result, delivered, killed) != Aborted
  {
    GoodForever(total, ops, t => Doable(t));
  }

  // ---------------------------------------------------------------- attribution

  /** `programOf` tells which program a transaction runs. */
  ghost function Follows(programOf: Hash -> Hash): Task -> bool {
    (t: Task) => t.program == programOf(t.tx)
  }

  ghost predicate Attributed(s: Sched, programOf: Hash -> Hash) {
    && (forall i :: 0 <= i < |s.pending| ==> s.pending[i].1 == programOf(s.pending[i].0))
    && (forall c :: c in s.host.provider.registry ==>
          s.host.provider.registry[c].program == programOf(s.host.provider.registry[c].tx))
  }

  lemma StartAttributes(s: Sched, tx: Hash, program: Hash, a: Attempt, programOf: Hash -> Hash)
    requires Consistent(s.host.provider) && Attributed(s, programOf) && program == programOf(tx)
    ensures Attributed(s.(host := StartProgram(s.host, tx, program, a).0), programOf)
    ensures Consistent(StartProgram(s.host, tx, program, a).0.provider)
  {
    StartKeeps(s.host, tx, program, a);
  }

  lemma {:induction false} PendingAttributes(s: Sched, todo: seq<(Hash, Hash)>, attempts: nat -> Attempt, i: nat, programOf: Hash -> Hash)
    requires Consistent(s.host.provider) && Attributed(s, programOf)
    requires forall j :: 0 <= j < |todo| ==> todo[j].1 == programOf(todo[j].0)
    ensures Attributed(PendingPass(s, todo, attempts, i), programOf)
    decreases |todo|
  {
    if todo != [] {
      var (tx, program) := todo[0];
      assert program == programOf(tx);
      var popped := if s.pending == [] then s else s.(pending := s.pending[1..]);
      StartAttributes(popped, tx, program, attempts(i), programOf);
      var (host, r) := StartProgram(popped.host, tx, program, attempts(i));
      if r.Started? {
        PendingAttributes(Install(popped.(host := host), tx, r.handle), todo[1..], attempts, i + 1, programOf);
      }
    }
  }

  lemma ApplyAttributes(s: Sched, op: Op, programOf: Hash -> Hash)
    requires Consistent(s.host.provider) && Attributed(s, programOf)
    requires op.EnqueueOp? ==> op.task.program == programOf(op.task.tx)
    ensures Attributed(Apply(s, op), programOf)
  {
    match op
    case EnqueueOp(task, attempt) => StartAttributes(s, task.tx, task.program, attempt, programOf);
    case PendingOp(attempts) => PendingAttributes(s, s.pending, attempts, 0, programOf);
    case RequestOp(tx, killed) =>
    case SubmitOp(_, _, _, _) =>
    case ReapOp(o) =>
  }

  lemma {:induction false} AlwaysAttributed(total: Resources, ops: seq<Op>, programOf: Hash -> Hash)
    requires AllEnqueued(ops, Follows(programOf))
    ensures Attributed(ApplyAll(Initial(total), ops), programOf)
  {
    if ops != [] {
      AlwaysAttributed(total, DropLast(ops), programOf);
      HostSafe(total, DropLast(ops));
      ApplyAttributes(ApplyAll(Initial(total), DropLast(ops)), Last(ops), programOf);
    }
  }

  /** A VM that reports a result for a running task ran that task's program: the
      program named in the resulting transaction is the one the task asked for. */
  lemma ResultsNameTheRightProgram(total: Resources, ops: seq<Op>, programOf: Hash -> Hash, cid: nat)
    requires AllEnqueued(ops, Follows(programOf))
    requires var s := ApplyAll(Initial(total), ops);
             cid in s.host.provider.registry && s.host.provider.registry[cid].tx in s.running
    ensures var s := ApplyAll(Initial(total), ops);
            var vm := s.host.provider.registry[cid];
            s.running[vm.tx].tx == vm.tx && s.running[vm.tx].program == vm.program
  {
    var s := ApplyAll(Initial(total), ops);
    var vm := s.host.provider.registry[cid];
    AlwaysAttributed(total, ops, programOf);
    GoodForever(total, ops, Follows(programOf));
    TasksAccounted(total, ops, s.running[vm.tx]);
  }

  // ---------------------------------------------------------------- reaping

  /** What becomes of `tx` in a round that leads from `s` to `r`; times are in seconds. Its task survives
      exactly if it has a live VM within the run limit. Its VM survives exactly if its
      task does, or if it has no running task and is within the idle limit. A VM that
      goes stays registered exactly if it could not be killed. */
  ghost predicate Fate(s: Sched, r: Sched, o: Observation, tx: Hash) {
    && (tx in r.running <==> tx in s.running && tx in s.vms
                             && o.liveness(tx) == Alive && o.taskTime(tx) <= 1800)
    && (tx in r.vms <==> tx in r.running
                         || (tx in s.vms && tx !in s.running && o.vmTime(tx) <= 60))
    && (tx in r.running ==> r.running[tx] == s.running[tx])
    && (tx in r.vms ==> r.vms[tx] == s.vms[tx])
    && (tx in s.vms && tx !in r.vms ==> (s.vms[tx].cid in r.host.provider.registry <==> !o.killed(tx)))
  }

  ghost predicate ReapedExactly(s: Sched, r: Sched, o: Observation) {
    forall tx: Hash :: Fate(s, r, o, tx)
  }

  lemma ReapIsExact(s: Sched, o: Observation)
    requires Identified(s)
    ensures ReapedExactly(s, Reap(s, o), o)
  {
    var gone := Restrict(s.vms, DoomedVms(s, o));
    forall tx: Hash | tx in gone ensures s.vms[tx].cid in KilledCids(gone, o.killed) <==> o.killed(tx) {
      assert Names(s.host.provider, s.vms[tx].cid, tx);
    }
  }

  /** A second round with the same observations finds nothing left to do. */
  lemma ReapIsStable(s: Sched, o: Observation)
    ensures Reap(Reap(s, o), o) == Reap(s, o)
  {
    var r := Reap(s, o);
    assert ZombieTasks(r, o) == {};
    assert DoomedVms(r, o) == {};
    WithoutNothing(r, o.killed);
  }

  lemma WithoutNothing(s: Sched, killed: Hash -> bool)
    ensures Without(s, {}, {}, killed) == s
  {
    assert Restrict(s.vms, {}) == map[] && Restrict(s.running, {}) == map[];
    assert s.running - {} == s.running && s.vms - {} == s.vms;
    assert KilledCids(map[], killed) == {};
    var p := s.host.provider;
    assert p.cids - {} == p.cids && p.registry - {} == p.registry;
  }
}
