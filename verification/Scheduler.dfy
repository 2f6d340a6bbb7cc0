/** The scheduler as it runs: mutable maps and queues, a resource manager whose
    reservations come back when their handle dies, and a VM provider. Each method is
    proved to make the step of the same name on values. */
module SchedulerObjects {
  import opened Basics
  import opened Transactions
  import opened VmProvider
  import opened MapSums
  import opened SchedulerInvariants
  import opened SchedulerTasks
  import opened SchedulerEffects
  import Model = SchedulerModel
  import opened SchedulerModel

  class ResourceManager {
    var availableMem: nat
    var availableCpus: nat
    var availableGpus: nat

    ghost function View(): Resources
      reads this
    {
      Resources(availableMem, availableCpus, availableGpus)
    }

    constructor (total: Resources)
      ensures View() == total
    {
      availableMem := total.mem;
      availableCpus := total.cpus;
      availableGpus := total.gpus;
    }

    /** All three resources or none. */
    method TryAllocate(request: Resources) returns (ok: bool)
      modifies this
      ensures ok <==> request.Fits(old(View()))
      ensures View() == if ok then old(View()).Minus(request) else old(View())
    {
      if availableMem < request.mem {
        return false;
      }
      if availableCpus < request.cpus {
        return false;
      }
      if availableGpus < request.gpus {
        return false;
      }
      availableMem := availableMem - request.mem;
      availableCpus := availableCpus - request.cpus;
      availableGpus := availableGpus - request.gpus;
      return true;
    }

    method Free(allocation: Resources)
      modifies this
      ensures View() == old(View()).Plus(allocation)
    {
      availableMem := availableMem + allocation.mem;
      availableCpus := availableCpus + allocation.cpus;
      availableGpus := availableGpus + allocation.gpus;
    }
  }

  class ProgramManager {
    const resources: ResourceManager
    const qemu: Qemu

    ghost function View(): Host
      reads resources, qemu
    {
      Host(resources.View(), qemu.View())
    }

    constructor (resources: ResourceManager, qemu: Qemu)
      ensures this.resources == resources && this.qemu == qemu
    {
      this.resources := resources;
      this.qemu := qemu;
    }

    method StartProgram(tx: Hash, program: Hash, a: Attempt) returns (r: StartResult)
      requires Consistent(qemu.View()) && |qemu.cids| < CidSpace - FirstCid
      modifies resources, qemu
      ensures (View(), r) == Model.StartProgram(old(View()), tx, program, a)
      ensures Consistent(qemu.View()) && |qemu.cids| <= |old(qemu.cids)| + 1
    {
      if a.lookup.LookupFailed? {
        return StartFailed;
      }
      if a.lookup.NotFound? {
        return ProgramMissing;
      }
      var request := RequestOf(a.lookup.limits);
      var ok := resources.TryAllocate(request);
      if !ok {
        return NoResources;
      }
      FewTakenHasRoom(qemu.cids);
      var cid := qemu.StartVm(tx, program, a.booted, a.cleaned);
      if cid.None? {
        // The reservation is dropped on the way out.
        resources.Free(request);
        assert resources.View() == old(resources.View());
        return StartFailed;
      }
      assert a.booted;
      return Started(Handle(request, cid.value));
    }

    method StopProgram(handle: Handle, killed: bool) returns (ok: bool)
      requires Consistent(qemu.View()) && handle.cid in qemu.registry
      modifies resources, qemu
      ensures View() == Model.StopProgram(old(View()), handle, killed)
      ensures ok == killed
    {
      ok := qemu.StopVm(handle.cid, killed);
      // The handle ends here and its reservation with it.
      resources.Free(handle.alloc);
    }
  }

  class Scheduler {
    const manager: ProgramManager
    var pending: seq<(Hash, Hash)>
    var running: map<Hash, Task>
    var vms: map<Hash, Handle>
    var queues: map<Hash, seq<Task>>
    ghost var ledger: Ledger

    ghost function View(): Sched
      reads this, manager.resources, manager.qemu
    {
      Sched(manager.View(), pending, running, vms, queues, ledger)
    }

    ghost predicate Valid()
      reads this, manager.resources, manager.qemu
    {
      Identified(View()) && Keyed(View())
    }

    /** Room for `n` more VM ids. */
    ghost predicate RoomFor(n: nat)
      reads manager.qemu
    {
      |manager.qemu.cids| + n <= CidSpace - FirstCid
    }

    constructor (total: Resources)
      ensures Valid() && View() == Initial(total)
      ensures fresh(manager) && fresh(manager.resources) && fresh(manager.qemu)
    {
      var resources := new ResourceManager(total);
      var qemu := new Qemu();
      manager := new ProgramManager(resources, qemu);
      pending := [];
      running := map[];
      vms := map[];
      queues := map[];
      ledger := Ledger(multiset{}, multiset{}, multiset{}, multiset{}, multiset{});
    }

    /** Inserting over an old handle drops it, and with it its reservation. */
    method Install(tx: Hash, handle: Handle)
      modifies this, manager.resources
      ensures View() == Model.Install(old(View()), tx, handle)
    {
      if tx in vms {
        manager.resources.Free(vms[tx].alloc);
      }
      vms := vms[tx := handle];
    }

    method StopVmOf(tx: Hash, killed: bool)
      requires Identified(View())
      modifies this, manager.resources, manager.qemu
      ensures View() == Model.StopVmOf(old(View()), tx, killed) && Identified(View())
    {
      StopIdentifies(View(), tx, killed);
      if tx in vms {
        assert Names(manager.qemu.View(), vms[tx].cid, tx);
        var handle := vms[tx];
        vms := vms - {tx};
        var _ := manager.StopProgram(handle, killed);
      }
    }

    method Push(task: Task)
      modifies this
      ensures View() == Queued(old(View()), task)
    {
      if task.tx in queues {
        queues := queues[task.tx := queues[task.tx] + [task]];
      } else {
        assert [] + [task] == [task];
        queues := queues[task.tx := [task]];
      }
      ledger := ledger.(enqueued := ledger.enqueued + multiset{task});
    }

    /** Push the task into the queue of its transaction and start the program. */
    method Enqueue(task: Task, a: Attempt)
      requires Valid() && RoomFor(1)
      modifies this, manager.resources, manager.qemu
      ensures View() == Model.Enqueue(old(View()), task, a) && Valid()
      ensures Scheduled(old(View()), View(), task, a)
    {
      ghost var s := View();
      EnqueueDoes(s, task, a);
      SelfBalanced(s);
      ApplyKeepsHost(s, EnqueueOp(task, a), s.host.available.Plus(Total(s.vms)));
      ApplyKeepsKeyed(s, EnqueueOp(task, a));
      Push(task);
      var r := manager.StartProgram(task.tx, task.program, a);
      if r.Started? {
        Install(task.tx, r.handle);
      } else {
        if r.ProgramMissing? {
          ledger := ledger.(dropped := ledger.dropped + multiset(queues[task.tx]));
          queues := queues - {task.tx};
        }
        pending := pending + [(task.tx, task.program)];
      }
    }

    /** Try the pending programs in turn; stop at the first that does not start. */
    method StartPending(attempts: nat -> Attempt)
      requires Valid() && RoomFor(|pending|)
      modifies this, manager.resources, manager.qemu
      ensures View() == PendingPass(old(View()), old(pending), attempts, 0) && Valid()
    {
      ghost var s := View();
      SelfBalanced(s);
      ApplyKeepsHost(s, PendingOp(attempts), s.host.available.Plus(Total(s.vms)));
      ApplyKeepsKeyed(s, PendingOp(attempts));
      var todo := pending;
      var i: nat := 0;
      while todo != []
        invariant pending == todo
        invariant PendingPass(s, s.pending, attempts, 0) == PendingPass(View(), todo, attempts, i)
        invariant Consistent(manager.qemu.View()) && RoomFor(|todo|)
        decreases |todo|
      {
        var (tx, program) := todo[0];
        todo := todo[1..];
        pending := pending[1..];
        var r := manager.StartProgram(tx, program, attempts(i));
        if r.Started? {
          Install(tx, r.handle);
        } else {
          pending := pending + [(tx, program)];
          return;
        }
        i := i + 1;
      }
    }

    /** A VM asks for a task. */
    method GetPendingTask(tx: Hash, killed: bool) returns (task: Option<Task>)
      requires Valid()
      modifies this, manager.resources, manager.qemu
      ensures View() == Model.GetPendingTask(old(View()), tx, killed) && Valid()
      ensures task == Answer(old(View()), tx) && Served(old(View()), View(), tx, killed, task)
    {
      ghost var s := View();
      RequestDoes(s, tx, killed);
      ApplyKeepsKeyed(s, RequestOp(tx, killed));
      if tx in running {
        StopVmOf(tx, killed);
        return None;
      }
      if tx in queues && queues[tx] != [] {
        var first := queues[tx][0];
        queues := queues[tx := queues[tx][1..]];
        running := running[first.tx := first];
        ledger := ledger.(handedOut := ledger.handedOut + multiset{first});
        return Some(first);
      }
      return None;
    }

    /** A VM delivers a result; `made` is the transaction built from the running task. */
    method SubmitResult(tx: Hash, program: Hash, result: VmResult, delivered: bool, killed: bool)
      returns (reply: Reply, made: Option<Payload>)
      requires Valid()
      modifies this, manager.resources, manager.qemu
      ensures View() == Model.SubmitResult(old(View()), tx, result, delivered, killed) && Valid()
      ensures reply == ReplyTo(old(View()), tx, result, delivered, killed)
      ensures Delivered(old(View()), View(), tx, result, delivered, killed, reply)
      ensures made == if tx in old(running) && result.Produced?
                      then ResultPayload(old(running)[tx], program, result.files) else None
      ensures made.Some? ==> made.value == if old(running)[tx].kind == ProofTask
                                           then Proof(tx, program, result.files)
                                           else Verification(tx, program, result.files)
    {
      ghost var s := View();
      SubmitDoes(s, tx, result, delivered, killed);
      SubmitKeepsKeyed(s, tx, result, delivered, killed);
      made := None;
      if tx !in running {
        return UnknownTask, None;
      }
      var task := running[tx];
      running := running - {tx};
      ledger := ledger.(submitted := ledger.submitted + multiset{task});
      assert View() == Finished(s, tx) && Identified(View());
      if result.Produced? {
        made := ResultPayload(task, program, result.files);
        if made.None? {
          return Aborted, made;
        }
        if !delivered {
          return NotDelivered, made;
        }
      }
      var hadVm := tx in vms;
      StopVmOf(tx, killed);
      reply := if hadVm && !killed then StopFailed else Accepted;
    }

    // -------------------------------------------------------------- reaping

    /** Inspect every running task. */
    method FindZombies(o: Observation) returns (zombies: seq<Hash>)
      requires Keyed(View())
      ensures Elems(zombies) == ZombieTasks(View(), o)
    {
      zombies := [];
      var todo := running.Keys;
      while todo != {}
        invariant todo <= running.Keys
        invariant forall tx :: tx in zombies <==> tx in running && tx !in todo && !Healthy(View(), tx, o)
        decreases todo
      {
        var key :| key in todo;
        var tx := running[key].tx;
        assert tx == key;
        if tx in vms {
          if o.liveness(tx) == Alive {
            if o.taskTime(tx) > MaxVmRunTime {
              zombies := zombies + [tx];
            }
          } else {
            zombies := zombies + [tx];
          }
        } else {
          zombies := zombies + [tx];
        }
        todo := todo - {key};
      }
    }

    method WriteOffTask(tx: Hash)
      modifies this
      ensures View() == WriteOff(old(View()), tx)
    {
      if tx in running {
        ledger := ledger.(reaped := ledger.reaped + multiset{running[tx]});
      }
      running := running - {tx};
    }

    /** Stop the VM of every zombie and write its task off. */
    method ReapTasks(zombies: seq<Hash>, killed: Hash -> bool)
      requires Identified(View())
      modifies this, manager.resources, manager.qemu
      ensures View() == Without(old(View()), Elems(zombies), Elems(zombies), killed) && Identified(View())
    {
      ghost var s, done := View(), {};
      WithoutNothing(s, killed);
      var left := zombies;
      while left != []
        invariant View() == Without(s, done, done, killed) && Identified(View())
        invariant Elems(zombies) == done + Elems(left)
        decreases |left|
      {
        var tx := Last(left);
        ElemsConcat(DropLast(left), [tx]);
        assert left == DropLast(left) + [tx];
        left := DropLast(left);
        WithoutVm(s, done, done, killed, tx);
        StopVmOf(tx, killed(tx));
        WithoutTask(s, done, done + {tx}, killed, tx);
        WriteOffTask(tx);
        done := done + {tx};
      }
      assert done == Elems(zombies);
    }

    /** VMs that run no task and have been up for too long. */
    method FindIdle(o: Observation) returns (idle: seq<Hash>)
      ensures forall tx :: tx in idle <==> tx in vms && tx !in running && o.vmTime(tx) > MaxVmIdleRunTime
    {
      idle := [];
      var todo := vms.Keys;
      while todo != {}
        invariant todo <= vms.Keys
        invariant forall tx :: tx in idle <==>
                    tx in vms && tx !in todo && tx !in running && o.vmTime(tx) > MaxVmIdleRunTime
        decreases todo
      {
        var tx :| tx in todo;
        if tx !in running {
          if o.vmTime(tx) > MaxVmIdleRunTime {
            idle := idle + [tx];
          }
        }
        todo := todo - {tx};
      }
    }

    method ReapVms(idle: seq<Hash>, killed: Hash -> bool, ghost s: Sched, ghost gone: set<Hash>)
      requires Identified(View()) && View() == Without(s, gone, gone, killed)
      modifies this, manager.resources, manager.qemu
      ensures View() == Without(s, gone, gone + Elems(idle), killed) && Identified(View())
    {
      ghost var done := {};
      assert gone + done == gone;
      var left := idle;
      while left != []
        invariant View() == Without(s, gone, gone + done, killed) && Identified(View())
        invariant Elems(idle) == done + Elems(left)
        decreases |left|
      {
        var tx := Last(left);
        ElemsConcat(DropLast(left), [tx]);
        assert left == DropLast(left) + [tx];
        left := DropLast(left);
        WithoutVm(s, gone, gone + done, killed, tx);
        StopVmOf(tx, killed(tx));
        assert gone + done + {tx} == gone + (done + {tx});
        done := done + {tx};
      }
      assert done == Elems(idle);
    }

    /** Write off dead and overdue tasks with their VMs, then idle VMs. */
    method ReapZombies(o: Observation)
      requires Valid()
      modifies this, manager.resources, manager.qemu
      ensures View() == Reap(old(View()), o) && Valid()
      ensures ReapedExactly(old(View()), View(), o)
    {
      ghost var s := View();
      ReapKeepsKeyed(s, o);
      ReapIsExact(s, o);
      var zombies := FindZombies(o);
      ReapTasks(zombies, o.killed);
      var idle := FindIdle(o);
      ReapVms(idle, o.killed, s, ZombieTasks(s, o));
      WithoutSame(s, ZombieTasks(s, o), ZombieTasks(s, o) + Elems(idle), DoomedVms(s, o), o.killed);
    }
  }

  lemma SelfBalanced(s: Sched)
    ensures Balanced(s, s.host.available.Plus(Total(s.vms)))
  {
    forall axis
      ensures Amount(axis, s.host.available) + SumBy(HeldOn(axis), s.vms)
           == Amount(axis, s.host.available.Plus(Total(s.vms)))
    {
      AmountPlus(axis, s.host.available, Total(s.vms));
      AmountTotal(axis, s.vms);
    }
  }

  /** Only the part of a key set that has VMs matters. */
  lemma WithoutSame(s: Sched, tasks: set<Hash>, a: set<Hash>, b: set<Hash>, killed: Hash -> bool)
    requires forall tx :: tx in s.vms ==> (tx in a <==> tx in b)
    ensures Without(s, tasks, a, killed) == Without(s, tasks, b, killed)
  {
    assert Restrict(s.vms, a) == Restrict(s.vms, b);
    assert s.vms - a == s.vms - b;
  }

  /** Stopping one more VM. */
  lemma WithoutVm(s: Sched, tasks: set<Hash>, stopped: set<Hash>, killed: Hash -> bool, tx: Hash)
    ensures Model.StopVmOf(Without(s, tasks, stopped, killed), tx, killed(tx))
         == Without(s, tasks, stopped + {tx}, killed)
  {
    var more := stopped + {tx};
    if tx in s.vms && tx !in stopped {
      var gone, gone' := Restrict(s.vms, stopped), Restrict(s.vms, more);
      RestrictGrows(s.vms, stopped, tx);
      TotalGrows(gone', tx);
      assert s.vms - stopped - {tx} == s.vms - more;
      KilledGrows(gone', tx, killed);
      RegistryShrinks(s.host.provider, KilledCids(gone, killed), s.vms[tx].cid);
    } else {
      WithoutSame(s, tasks, stopped, more, killed);
    }
  }

  lemma TotalGrows(vms: map<Hash, Handle>, tx: Hash)
    requires tx in vms
    ensures Total(vms) == Total(vms - {tx}).Plus(vms[tx].alloc)
  {
    SumBySplit(HeldOn(Mem), vms, tx);
    SumBySplit(HeldOn(Cpus), vms, tx);
    SumBySplit(HeldOn(Gpus), vms, tx);
  }

  lemma KilledGrows(vms: map<Hash, Handle>, tx: Hash, killed: Hash -> bool)
    requires tx in vms
    ensures KilledCids(vms, killed) == KilledCids(vms - {tx}, killed) + if killed(tx) then {vms[tx].cid} else {}
  {
  }

  lemma RegistryShrinks(p: Provider, cids: set<nat>, cid: nat)
    ensures p.registry - cids - {cid} == p.registry - (cids + {cid})
    ensures p.cids - cids - {cid} == p.cids - (cids + {cid})
    ensures p.registry - (cids + {}) == p.registry - cids
    ensures p.cids - (cids + {}) == p.cids - cids
  {
  }

  function WriteOff(s: Sched, tx: Hash): Sched {
    s.(running := s.running - {tx},
       ledger := s.ledger.(reaped := s.ledger.reaped
                                     + if tx in s.running then multiset{s.running[tx]} else multiset{}))
  }

  lemma BagRestrictGrows(m: map<Hash, Task>, keys: set<Hash>, tx: Hash)
    ensures Bag(Restrict(m, keys + {tx}))
         == Bag(Restrict(m, keys)) + if tx in m && tx !in keys then multiset{m[tx]} else multiset{}
  {
    if tx in m && tx !in keys {
      RestrictGrows(m, keys, tx);
      BagSplit(Restrict(m, keys + {tx}), tx);
    } else {
      assert Restrict(m, keys + {tx}) == Restrict(m, keys);
    }
  }

  lemma SumAssoc(a: multiset<Task>, b: multiset<Task>, c: multiset<Task>)
    ensures a + (b + c) == a + b + c
  {
  }

  /** Writing off one more task. */
  lemma WithoutTask(s: Sched, tasks: set<Hash>, stopped: set<Hash>, killed: Hash -> bool, tx: Hash)
    ensures WriteOff(Without(s, tasks, stopped, killed), tx) == Without(s, tasks + {tx}, stopped, killed)
  {
    assert s.running - tasks - {tx} == s.running - (tasks + {tx});
    BagRestrictGrows(s.running, tasks, tx);
    var extra := if tx in s.running - tasks then multiset{s.running[tx]} else multiset{};
    SumAssoc(s.ledger.reaped, Bag(Restrict(s.running, tasks)), extra);
  }
}
