/** What single scheduler operations do, said without the steps they are made of: who has
    a VM afterwards, what came back, what is queued, dropped and pending. */
module SchedulerEffects {
  import opened Basics
  import opened Transactions
  import opened Subsequences
  import opened VmProvider
  import opened SchedulerModel
  import opened SchedulerInvariants
  import opened SchedulerTasks

  // ---------------------------------------------------------------- stopping a VM

  /** One id is given up, or kept if its VM could not be killed; all others stay. */
  ghost predicate OnlyGone(p: Provider, q: Provider, cid: nat, killed: bool) {
    && (cid in q.registry <==> !killed) && (cid in q.cids <==> !killed)
    && (forall c :: c != cid ==> (c in q.cids <==> c in p.cids))
    && (forall c :: c != cid ==> (c in q.registry <==> c in p.registry))
    && (forall c :: c in q.registry && c in p.registry ==> q.registry[c] == p.registry[c])
  }

  /** `tx` has no VM any more. What its VM held is free again, once. */
  ghost predicate VmGone(s: Sched, r: Sched, tx: Hash, killed: bool) {
    && r.vms == s.vms - {tx}
    && (tx !in s.vms ==> r.host == s.host)
    && (tx in s.vms ==>
          && r.host.available.mem == s.host.available.mem + s.vms[tx].alloc.mem
          && r.host.available.cpus == s.host.available.cpus + s.vms[tx].alloc.cpus
          && r.host.available.gpus == s.host.available.gpus + s.vms[tx].alloc.gpus
          && OnlyGone(s.host.provider, r.host.provider, s.vms[tx].cid, killed))
  }

  ghost predicate SameVms(s: Sched, r: Sched) {
    r.vms == s.vms && r.host == s.host
  }

  lemma StopDoes(s: Sched, tx: Hash, killed: bool)
    requires Identified(s)
    ensures VmGone(s, StopVmOf(s, tx, killed), tx, killed)
  {
    if tx in s.vms {
      assert Names(s.host.provider, s.vms[tx].cid, tx);
    } else {
      assert s.vms - {tx} == s.vms;
    }
  }

  // ---------------------------------------------------------------- a result

  /** The end of a delivery, by its reply. A result that gets through, and an error that
      the VM reports, leave the transaction without a task and without a VM. */
  ghost predicate Delivered(s: Sched, r: Sched, tx: Hash, result: VmResult, delivered: bool, killed: bool, reply: Reply) {
    && r.queues == s.queues && r.pending == s.pending
    && (reply != UnknownTask ==> tx in s.running && r.running == s.running - {tx})
    && match reply
       case Accepted => VmGone(s, r, tx, killed) && (tx in s.vms ==> killed) && (result.Produced? ==> delivered)
       case StopFailed => VmGone(s, r, tx, killed) && tx in s.vms && !killed && (result.Produced? ==> delivered)
       case NotDelivered => SameVms(s, r) && result.Produced? && !delivered
       case Aborted => SameVms(s, r) && result.Produced? && !Doable(s.running[tx])
       case UnknownTask => r == s && tx !in s.running
  }

  lemma SubmitDoes(s: Sched, tx: Hash, result: VmResult, delivered: bool, killed: bool)
    requires Identified(s)
    ensures Delivered(s, SubmitResult(s, tx, result, delivered, killed), tx, result, delivered, killed,
                      ReplyTo(s, tx, result, delivered, killed))
  {
    if tx in s.running {
      StopDoes(Finished(s, tx), tx, killed);
    }
  }

  /** The same in every reachable state. */
  lemma ResultsEndTheirVm(total: Resources, ops: seq<Op>, tx: Hash, result: VmResult, delivered: bool, killed: bool)
    ensures var s := ApplyAll(Initial(total), ops);
            var r := Apply(s, SubmitOp(tx, result, delivered, killed));
            Delivered(s, r, tx, result, delivered, killed, ReplyTo(s, tx, result, delivered, killed))
  {
    HostSafe(total, ops);
    SubmitDoes(ApplyAll(Initial(total), ops), tx, result, delivered, killed);
  }

  // ---------------------------------------------------------------- a request for work

  /** A VM whose transaction already runs a task loses its VM; otherwise it gets the
      task that has been queued longest, if there is one. */
  ghost predicate Served(s: Sched, r: Sched, tx: Hash, killed: bool, answer: Option<Task>) {
    && r.pending == s.pending
    && (forall t :: t != tx ==> QueueOf(r, t) == QueueOf(s, t))
    && (tx in s.running ==>
          answer == None && VmGone(s, r, tx, killed) && r.running == s.running && QueueOf(r, tx) == QueueOf(s, tx))
    && (tx !in s.running ==> SameVms(s, r))
    && (tx !in s.running && answer.None? ==> QueueOf(s, tx) == [] && r == s)
    && (answer.Some? ==> QueueOf(s, tx) == [answer.value] + QueueOf(r, tx) && r.running == s.running[tx := answer.value])
  }

  lemma RequestDoes(s: Sched, tx: Hash, killed: bool)
    requires Identified(s) && Keyed(s)
    ensures Served(s, GetPendingTask(s, tx, killed), tx, killed, Answer(s, tx))
  {
    if tx in s.running {
      StopDoes(s, tx, killed);
    } else if QueueOf(s, tx) != [] {
      assert AllFor(s.queues[tx], tx);
    }
  }

  // ---------------------------------------------------------------- a new task

  /** A VM that was not there before. */
  ghost predicate NewVm(s: Sched, r: Sched, tx: Hash) {
    tx in r.vms && r.vms[tx].cid !in s.host.provider.registry
  }

  /** What a program asks for: its own limits, or 2048 of memory and two CPUs. */
  ghost predicate Asks(limits: Option<Resources>, want: Resources) {
    && (limits.Some? ==> want == limits.value)
    && (limits.None? ==> want.mem == 2048 && want.cpus == 2 && want.gpus == 0)
  }

  /** The task stands last in its queue, unless its program does not exist: then the
      queue is gone. */
  ghost predicate TaskScheduled(s: Sched, r: Sched, task: Task, a: Attempt) {
    && r.running == s.running
    && (forall tx :: tx != task.tx ==> QueueOf(r, tx) == QueueOf(s, tx))
    && (a.lookup.NotFound? ==>
          QueueOf(r, task.tx) == [] && r.ledger.dropped == s.ledger.dropped + multiset(QueueOf(s, task.tx) + [task]))
    && (!a.lookup.NotFound? ==>
          QueueOf(r, task.tx) == QueueOf(s, task.tx) + [task] && r.ledger.dropped == s.ledger.dropped)
  }

  /** The program is pending exactly if its transaction got no new VM. A new VM holds
      what the program asks for. */
  ghost predicate VmScheduled(s: Sched, r: Sched, task: Task, a: Attempt) {
    && (NewVm(s, r, task.tx) <==> CanStart(s.host, a))
    && (NewVm(s, r, task.tx) ==>
          && a.lookup.Found? && Asks(a.lookup.limits, r.vms[task.tx].alloc)
          && r.vms - {task.tx} == s.vms - {task.tx} && r.pending == s.pending)
    && (!NewVm(s, r, task.tx) ==>
          r.vms == s.vms && r.host.available == s.host.available && r.pending == s.pending + [(task.tx, task.program)])
  }

  ghost predicate Scheduled(s: Sched, r: Sched, task: Task, a: Attempt) {
    TaskScheduled(s, r, task, a) && VmScheduled(s, r, task, a)
  }

  /** The program exists, what it asks for is free, an id is left, and the VM comes up. */
  ghost predicate CanStart(h: Host, a: Attempt) {
    && a.lookup.Found? && a.booted && HasRoom(h.provider.cids)
    && exists want :: Asks(a.lookup.limits, want) && want.Fits(h.available)
  }

  /** Whether a program starts, whether it is new or has been pending, and what it holds. */
  lemma StartsIff(h: Host, tx: Hash, program: Hash, a: Attempt)
    requires Consistent(h.provider)
    ensures var (h', r) := StartProgram(h, tx, program, a);
            && (r.Started? <==> CanStart(h, a))
            && (r.Started? ==> Asks(a.lookup.limits, r.handle.alloc))
            && (r == ProgramMissing <==> a.lookup == NotFound)
  {
    if a.lookup.Found? {
      assert Asks(a.lookup.limits, RequestOf(a.lookup.limits));
    }
  }

  lemma TaskIsScheduled(s: Sched, task: Task, a: Attempt)
    ensures TaskScheduled(s, Enqueue(s, task, a), task, a)
  {
  }

  /** As far as VMs go, enqueueing installs the started one or leaves all as it is. */
  lemma EnqueueVms(s: Sched, task: Task, a: Attempt)
    ensures var (h, x) := StartProgram(s.host, task.tx, task.program, a);
            var r := Enqueue(s, task, a);
            && (x.Started? ==> r.vms == s.vms[task.tx := x.handle] && r.pending == s.pending)
            && (!x.Started? ==> r.vms == s.vms && r.host == h && r.pending == s.pending + [(task.tx, task.program)])
  {
  }

  lemma VmIsScheduled(s: Sched, task: Task, a: Attempt)
    requires Identified(s)
    ensures VmScheduled(s, Enqueue(s, task, a), task, a)
  {
    StartKeeps(s.host, task.tx, task.program, a);
    StartsIff(s.host, task.tx, task.program, a);
    EnqueueVms(s, task, a);
    if task.tx in s.vms {
      assert Names(s.host.provider, s.vms[task.tx].cid, task.tx);
    }
  }

  lemma EnqueueDoes(s: Sched, task: Task, a: Attempt)
    requires Identified(s)
    ensures Scheduled(s, Enqueue(s, task, a), task, a)
  {
    TaskIsScheduled(s, task, a);
    VmIsScheduled(s, task, a);
  }

  // ---------------------------------------------------------------- over runs

  lemma ApplyDrops(s: Sched, op: Op)
    requires Identified(s) && !(op.EnqueueOp? && op.attempt.lookup.NotFound?)
    ensures Apply(s, op).ledger.dropped == s.ledger.dropped
  {
    match op
    case EnqueueOp(task, attempt) => TaskIsScheduled(s, task, attempt);
    case PendingOp(attempts) => PendingKeepsTasks(s, s.pending, attempts, 0);
    case RequestOp(tx, killed) =>
    case SubmitOp(tx, result, delivered, killed) =>
    case ReapOp(o) =>
  }

  /** Nothing is ever dropped unless a program is looked up that does not exist. */
  lemma {:induction false} NothingDropped(total: Resources, ops: seq<Op>)
    requires forall i :: 0 <= i < |ops| && ops[i].EnqueueOp? ==> !ops[i].attempt.lookup.NotFound?
    ensures ApplyAll(Initial(total), ops).ledger.dropped == multiset{}
  {
    if ops != [] {
      NothingDropped(total, DropLast(ops));
      HostSafe(total, DropLast(ops));
      ApplyDrops(ApplyAll(Initial(total), DropLast(ops)), Last(ops));
    }
  }

  /** The tasks enqueued for `tx`, in order. */
  ghost function EnqueuedFor(ops: seq<Op>, tx: Hash): seq<Task> {
    if ops == [] then []
    else EnqueuedFor(DropLast(ops), tx) + Added(Last(ops), tx)
  }

  /** The tasks handed out for `tx`, in order. */
  ghost function HandedOutFor(total: Resources, ops: seq<Op>, tx: Hash): seq<Task> {
    if ops == [] then []
    else HandedOutFor(total, DropLast(ops), tx) + Handed(ApplyAll(Initial(total), DropLast(ops)), Last(ops), tx)
  }

  ghost function Handed(s: Sched, op: Op, tx: Hash): seq<Task> {
    if op.RequestOp? && op.tx == tx && Answer(s, tx).Some? then [Answer(s, tx).value] else []
  }

  /** What becomes of a queue in one step: something is appended, the front is handed
      out, or all of it goes. */
  ghost predicate QueueMoves(q: seq<Task>, e: seq<Task>, h: seq<Task>, q': seq<Task>) {
    q + e == h + q' || (q' == [] && h == [])
  }

  lemma QueueStays(q: seq<Task>)
    ensures QueueMoves(q, [], [], q)
  {
    assert q + [] == [] + q;
  }

  ghost function Added(op: Op, tx: Hash): seq<Task> {
    if op.EnqueueOp? && op.task.tx == tx then [op.task] else []
  }

  lemma QueueStep(s: Sched, op: Op, tx: Hash)
    requires Identified(s) && Keyed(s)
    ensures QueueMoves(QueueOf(s, tx), Added(op, tx), Handed(s, op, tx), QueueOf(Apply(s, op), tx))
  {
    QueueStays(QueueOf(s, tx));
    match op
    case EnqueueOp(task, attempt) => EnqueueStep(s, task, attempt, tx);
    case PendingOp(attempts) => PendingKeepsTasks(s, s.pending, attempts, 0);
    case RequestOp(t, killed) => RequestStep(s, t, killed, tx);
    case SubmitOp(t, result, delivered, killed) => SubmitTasks(s, t, result, delivered, killed);
    case ReapOp(o) =>
  }

  lemma EnqueueStep(s: Sched, task: Task, a: Attempt, tx: Hash)
    requires Identified(s)
    ensures QueueMoves(QueueOf(s, tx), if task.tx == tx then [task] else [], [], QueueOf(Enqueue(s, task, a), tx))
  {
    var q, r := QueueOf(s, tx), Enqueue(s, task, a);
    TaskIsScheduled(s, task, a);
    QueueStays(q);
    assert [] + (q + [task]) == q + [task];
  }

  lemma RequestStep(s: Sched, t: Hash, killed: bool, tx: Hash)
    requires Identified(s) && Keyed(s)
    ensures QueueMoves(QueueOf(s, tx), [], Handed(s, RequestOp(t, killed), tx), QueueOf(GetPendingTask(s, t, killed), tx))
  {
    RequestDoes(s, t, killed);
    QueueStays(QueueOf(s, tx));
    assert QueueOf(s, tx) + [] == QueueOf(s, tx);
  }

  lemma LineMoves(out: seq<Task>, q: seq<Task>, e: seq<Task>, h: seq<Task>, q': seq<Task>, enqueued: seq<Task>)
    requires InOrderOf(out + q, enqueued) && |e| <= 1 && QueueMoves(q, e, h, q')
    ensures InOrderOf(out + h + q', enqueued + e)
  {
    if q + e == h + q' {
      assert out + h + q' == out + (h + q') == out + (q + e) == out + q + e;
      if e == [] {
        assert enqueued + e == enqueued && out + q + e == out + q;
      } else {
        assert e == [e[0]];
        InOrderGrows(out + q, enqueued, e[0]);
      }
    } else {
      CutInOrder(out, q, []);
      assert out + q + [] == out + q && out + h + q' == out + [];
      InOrderTrans(out + [], out + q, enqueued);
      if e == [] {
        assert enqueued + e == enqueued;
      } else {
        assert e == [e[0]];
        InOrderGrows(out + [], enqueued, e[0]);
      }
    }
  }

  /** In every run the tasks of a transaction are handed out in the order they were
      enqueued, and those still queued come after them. */
  lemma {:induction false} HandedOutInOrder(total: Resources, ops: seq<Op>, tx: Hash)
    ensures InOrderOf(HandedOutFor(total, ops, tx) + QueueOf(ApplyAll(Initial(total), ops), tx), EnqueuedFor(ops, tx))
  {
    if ops == [] {
      NothingInOrder(EnqueuedFor(ops, tx));
      assert HandedOutFor(total, ops, tx) + QueueOf(Initial(total), tx) == [];
    } else {
      var s, op, out := ApplyAll(Initial(total), DropLast(ops)), Last(ops), HandedOutFor(total, DropLast(ops), tx);
      HandedOutInOrder(total, DropLast(ops), tx);
      HostSafe(total, DropLast(ops));
      TasksKeyed(total, DropLast(ops));
      QueueStep(s, op, tx);
      LineMoves(out, QueueOf(s, tx), Added(op, tx), Handed(s, op, tx), QueueOf(Apply(s, op), tx), EnqueuedFor(DropLast(ops), tx));
    }
  }

  lemma {:induction false} TasksKeyed(total: Resources, ops: seq<Op>)
    ensures Keyed(ApplyAll(Initial(total), ops))
  {
    if ops != [] {
      TasksKeyed(total, DropLast(ops));
      ApplyKeepsKeyed(ApplyAll(Initial(total), DropLast(ops)), Last(ops));
    }
  }
}
