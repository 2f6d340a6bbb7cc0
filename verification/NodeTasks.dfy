/** Scheduler and workflow engine together: where the enqueued tasks come from, and what
    that says about their results. */
module NodeTasks {
  import opened Basics
  import opened Transactions
  import opened Ancestry
  import opened SchedulerModel
  import opened SchedulerTasks
  import opened Workflow

  /** Stored transactions stay as they are; others come in beside them. */
  ghost predicate Within(a: Store, b: Store) {
    forall h :: h in a ==> h in b && b[h] == a[h]
  }

  ghost predicate WellKept(store: Store) {
    forall h :: h in store ==> store[h].hash == h
  }

  ghost predicate IssuedFor(store: Store, task: Task, tx: Tx, id: nat) {
    && tx.hash in store && store[tx.hash] == tx && Grounded(Links(store), tx.hash)
    && NextTask(store, tx, id) == NewTask(task)
  }

  /** The workflow engine made this task for some stored transaction. */
  ghost predicate Issued(store: Store, task: Task) {
    exists tx, id :: IssuedFor(store, task, tx, id)
  }

  /** A run of the node: `stores[i]` is what is stored when operation `i` happens, and
      every task that is enqueued was made by the workflow engine from that. */
  ghost predicate History(ops: seq<Op>, stores: seq<Store>) {
    && |stores| == |ops|
    && (forall i :: 0 <= i < |stores| ==> WellKept(stores[i]))
    && (forall i, j :: 0 <= i <= j < |stores| ==> Within(stores[i], stores[j]))
    && (forall i :: 0 <= i < |ops| && ops[i].EnqueueOp? ==> Issued(stores[i], ops[i].task))
  }

  lemma {:induction false} UpWithin(a: Store, b: Store, h: Hash, n: nat)
    requires Within(a, b) && Up(Links(a), h, n).Some?
    ensures Up(Links(b), h, n) == Up(Links(a), h, n)
    decreases n
  {
    if n > 0 {
      UpWithin(a, b, Links(a)[h], n - 1);
    }
  }

  /** The program of a transaction does not change while the store grows. */
  lemma ProgramStays(a: Store, b: Store, h: Hash)
    requires Within(a, b) && Grounded(Links(a), h) && ProgramFor(a, h).Some?
    ensures Grounded(Links(b), h) && ProgramFor(b, h) == ProgramFor(a, h)
  {
    if a[h].payload.Run? {
      GroundedTop(Links(b), h);
    } else {
      var steps := WorkflowOf(a, h).value.value;
      WorkflowFoundIff(a, h, steps);
      var n: nat, run: Hash :| Up(Links(a), h, n) == Some(run) && run in a && a[run].payload == Run(steps);
      UpWithin(a, b, h, n);
      DescendantsShareTheWorkflow(b, h, run, n);
    }
  }

  ghost function ProgramIn(store: Store): Hash -> Hash {
    (h: Hash) => if Grounded(Links(store), h) && ProgramFor(store, h).Some? then ProgramFor(store, h).value else 0
  }

  /** Every enqueued task is a proving or verifying one, and runs the program that the
      last store names for its transaction. */
  lemma IssuedTask(ops: seq<Op>, stores: seq<Store>, i: nat)
    requires History(ops, stores) && i < |ops| && ops[i].EnqueueOp?
    ensures Doable(ops[i].task) && Follows(ProgramIn(Last(stores)))(ops[i].task)
  {
    var task := ops[i].task;
    assert Issued(stores[i], task);
    var tx, id :| IssuedFor(stores[i], task, tx, id);
    TasksAreDetermined(stores[i], tx, id);
    assert Within(stores[i], stores[|stores| - 1]);
    ProgramStays(stores[i], Last(stores), task.tx);
  }

  /** In every run of the node each result of a running task makes a transaction, and no
      reply is a panic: the unfinished and the impossible branch are dead. */
  lemma NoResultAborts(total: Resources, ops: seq<Op>, stores: seq<Store>, tx: Hash, program: Hash, files: seq<string>)
    requires History(ops, stores)
    ensures var s := ApplyAll(Initial(total), ops);
            && (tx in s.running ==> ResultPayload(s.running[tx], program, files).Some?)
            && forall result, delivered, killed :: ReplyTo(s, tx, result, delivered, killed) != Aborted
  {
    forall i | 0 <= i < |ops| && ops[i].EnqueueOp? ensures Doable(ops[i].task) {
      IssuedTask(ops, stores, i);
    }
    EveryResultMakesATx(total, ops, tx, program, files);
  }

  /** In every run of the node a VM that reports for a running task ran the program that
      task asked for, so the transaction made from its result names the right one. */
  lemma ReportingVmRanItsTask(total: Resources, ops: seq<Op>, stores: seq<Store>, cid: nat)
    requires History(ops, stores)
    requires var s := ApplyAll(Initial(total), ops);
             cid in s.host.provider.registry && s.host.provider.registry[cid].tx in s.running
    ensures var s := ApplyAll(Initial(total), ops);
            var vm := s.host.provider.registry[cid];
            s.running[vm.tx].tx == vm.tx && s.running[vm.tx].program == vm.program
  {
    assert ops != [];
    var programOf := ProgramIn(Last(stores));
    forall i | 0 <= i < |ops| && ops[i].EnqueueOp? ensures Follows(programOf)(ops[i].task) {
      IssuedTask(ops, stores, i);
    }
    ResultsNameTheRightProgram(total, ops, programOf, cid);
  }
}
