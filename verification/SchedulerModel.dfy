/** The scheduler, its program manager and its resource manager as functions on
    values. The state lock makes every operation one step; what the world answers
    (storage lookups, booting and killing VMs, liveness, elapsed times) is an input
    of the step. */
module SchedulerModel {
  import opened Basics
  import opened Transactions
  import opened VmProvider
  import opened MapSums

  // ---------------------------------------------------------------- resources

  datatype Resources = Resources(mem: nat, cpus: nat, gpus: nat) {
    predicate Fits(available: Resources) {
      mem <= available.mem && cpus <= available.cpus && gpus <= available.gpus
    }

    function Plus(r: Resources): Resources {
      Resources(mem + r.mem, cpus + r.cpus, gpus + r.gpus)
    }

    function Minus(r: Resources): Resources
      requires r.Fits(this)
    {
      Resources(mem - r.mem, cpus - r.cpus, gpus - r.gpus)
    }
  }

  const DefaultRequest: Resources := Resources(2048, 2, 0)

  /** A running program: the resources it holds and the id of its VM. */
  datatype Handle = Handle(alloc: Resources, cid: nat)

  datatype Host = Host(available: Resources, provider: Provider)

  datatype Lookup = LookupFailed | NotFound | Found(limits: Option<Resources>)

  /** What the world answers to one attempt at starting a program. */
  datatype Attempt = Attempt(lookup: Lookup, booted: bool, cleaned: bool)

  datatype StartResult = Started(handle: Handle) | ProgramMissing | NoResources | StartFailed

  function RequestOf(limits: Option<Resources>): Resources {
    if limits.Some? then limits.value else DefaultRequest
  }

  /** Look the program up, reserve resources, boot. A reservation dies with a failed
      boot. Were every VM id taken the search for one would not end; that case is
      given as a failed start and no method below can be called in it. */
  ghost function StartProgram(h: Host, tx: Hash, program: Hash, a: Attempt): (Host, StartResult) {
    match a.lookup
    case LookupFailed => (h, StartFailed)
    case NotFound => (h, ProgramMissing)
    case Found(limits) =>
      var req := RequestOf(limits);
      if !req.Fits(h.available) then (h, NoResources)
      else if h.provider.nextCid >= CidSpace || !HasRoom(h.provider.cids) then (h, StartFailed)
      else
        var cid, registered := FreshCid(h.provider), Register(h.provider, tx, program);
        if a.booted then (Host(h.available.Minus(req), registered), Started(Handle(req, cid)))
        else if a.cleaned then (h.(provider := Unregister(registered, cid)), StartFailed)
        else (h.(provider := registered), StartFailed)
  }

  /** The handle is consumed and its resources return whether or not killing works. */
  function StopProgram(h: Host, handle: Handle, killed: bool): Host {
    Host(h.available.Plus(handle.alloc),
         if killed then Unregister(h.provider, handle.cid) else h.provider)
  }

  // ---------------------------------------------------------------- scheduler state

  /** What has happened to tasks so far. */
  datatype Ledger = Ledger(
    enqueued: multiset<Task>,
    handedOut: multiset<Task>,
    submitted: multiset<Task>,
    reaped: multiset<Task>,
    dropped: multiset<Task>)

  datatype Sched = Sched(
    host: Host,
    pending: seq<(Hash, Hash)>,
    running: map<Hash, Task>,
    vms: map<Hash, Handle>,
    queues: map<Hash, seq<Task>>,
    ledger: Ledger)

  function QueueOf(s: Sched, tx: Hash): seq<Task> {
    if tx in s.queues then s.queues[tx] else []
  }

  /** Put a handle into the VM map. A handle that was there is dropped: its resources
      return, its VM stays registered. */
  function Install(s: Sched, tx: Hash, handle: Handle): Sched {
    var freed := if tx in s.vms then s.host.available.Plus(s.vms[tx].alloc) else s.host.available;
    s.(host := s.host.(available := freed), vms := s.vms[tx := handle])
  }

  /** Take the VM of `tx` out of the map, if there is one, and stop it. */
  function StopVmOf(s: Sched, tx: Hash, killed: bool): Sched {
    if tx in s.vms then
      s.(host := StopProgram(s.host, s.vms[tx], killed), vms := s.vms - {tx})
    else s
  }

  // ---------------------------------------------------------------- operations

  function Queued(s: Sched, task: Task): Sched {
    s.(queues := s.queues[task.tx := QueueOf(s, task.tx) + [task]],
       ledger := s.ledger.(enqueued := s.ledger.enqueued + multiset{task}))
  }

  function Postponed(s: Sched, tx: Hash, program: Hash): Sched {
    s.(pending := s.pending + [(tx, program)])
  }

  /** The program is unknown: its whole queue goes. */
  function QueueDropped(s: Sched, tx: Hash): Sched {
    s.(queues := s.queues - {tx},
       ledger := s.ledger.(dropped := s.ledger.dropped + multiset(QueueOf(s, tx))))
  }

  /** Queue a task and start its program. */
  ghost function Enqueue(s: Sched, task: Task, a: Attempt): Sched {
    var (host, result) := StartProgram(s.host, task.tx, task.program, a);
    var q := Queued(s, task).(host := host);
    match result
    case Started(handle) => Install(q, task.tx, handle)
    case ProgramMissing => Postponed(QueueDropped(q, task.tx), task.tx, task.program)
    case _ => Postponed(q, task.tx, task.program)
  }

  /** One turn over the pending programs: `todo` is the copy taken at its start. The
      first failure goes to the back of the queue and ends the turn. */
  ghost function PendingPass(s: Sched, todo: seq<(Hash, Hash)>, attempts: nat -> Attempt, i: nat): Sched
    decreases |todo|
  {
    if todo == [] then s
    else
      var (tx, program) := todo[0];
      var popped := if s.pending == [] then s else s.(pending := s.pending[1..]);
      var (host, result) := StartProgram(popped.host, tx, program, attempts(i));
      var next := popped.(host := host);
      if result.Started? then PendingPass(Install(next, tx, result.handle), todo[1..], attempts, i + 1)
      else Postponed(next, tx, program)
  }

  /** A VM asks for work. If its task is already running the VM is stopped instead. */
  function GetPendingTask(s: Sched, tx: Hash, killed: bool): Sched {
    if tx in s.running then StopVmOf(s, tx, killed)
    else if QueueOf(s, tx) == [] then s
    else
      var task := QueueOf(s, tx)[0];
      s.(queues := s.queues[tx := s.queues[tx][1..]],
         running := s.running[task.tx := task],
         ledger := s.ledger.(handedOut := s.ledger.handedOut + multiset{task}))
  }

  function Answer(s: Sched, tx: Hash): Option<Task> {
    if tx in s.running || QueueOf(s, tx) == [] then None else Some(QueueOf(s, tx)[0])
  }

  ghost predicate Doable(t: Task) {
    t.kind == ProofTask || t.kind == VerificationTask
  }

  /** What a VM sends back: the files it wrote, or an error. */
  datatype VmResult = Produced(files: seq<string>) | ReportedError

  /** How a delivery ends. `Aborted` is a panic: the branches for task kinds that make
      no transaction. `NotDelivered`: moving the files or sending the transaction failed. */
  datatype Reply = Accepted | UnknownTask | Aborted | NotDelivered | StopFailed

  /** The transaction made from a task's result. */
  function ResultPayload(task: Task, program: Hash, files: seq<string>): Option<Payload> {
    match task.kind
    case ProofTask => Some(Proof(task.tx, program, files))
    case VerificationTask => Some(Verification(task.tx, program, files))
    case _ => None
  }

  /** The running task is over, whatever comes of its result. */
  function Finished(s: Sched, tx: Hash): Sched
    requires tx in s.running
  {
    s.(running := s.running - {tx},
       ledger := s.ledger.(submitted := s.ledger.submitted + multiset{s.running[tx]}))
  }

  ghost function ReplyTo(s: Sched, tx: Hash, result: VmResult, delivered: bool, killed: bool): Reply {
    if tx !in s.running then UnknownTask
    else if result.Produced? && !Doable(s.running[tx]) then Aborted
    else if result.Produced? && !delivered then NotDelivered
    else if tx in s.vms && !killed then StopFailed
    else Accepted
  }

  /** A VM delivers its result. The VM is stopped unless the call ends before that. */
  ghost function SubmitResult(s: Sched, tx: Hash, result: VmResult, delivered: bool, killed: bool): Sched {
    match ReplyTo(s, tx, result, delivered, killed)
    case UnknownTask => s
    case Aborted => Finished(s, tx)
    case NotDelivered => Finished(s, tx)
    case _ => StopVmOf(Finished(s, tx), tx, killed)
  }

  // ---------------------------------------------------------------- reaping

  const MaxVmIdleRunTime: nat := 60
  const MaxVmRunTime: nat := 1800

  datatype Liveness = Alive | Dead | Unreachable

  /** What one round of reaping observes, per transaction. */
  datatype Observation = Observation(
    liveness: Hash -> Liveness,
    taskTime: Hash -> nat,
    vmTime: Hash -> nat,
    killed: Hash -> bool)

  ghost predicate Healthy(s: Sched, tx: Hash, o: Observation) {
    tx in s.vms && o.liveness(tx) == Alive && o.taskTime(tx) <= MaxVmRunTime
  }

  /** The VMs that outlive the round. */
  ghost predicate Survives(s: Sched, tx: Hash, o: Observation) {
    tx in s.vms && if tx in s.running then Healthy(s, tx, o) else o.vmTime(tx) <= MaxVmIdleRunTime
  }

  datatype Axis = Mem | Cpus | Gpus

  function Amount(axis: Axis, r: Resources): nat {
    match axis
    case Mem => r.mem
    case Cpus => r.cpus
    case Gpus => r.gpus
  }

  ghost function HeldOn(axis: Axis): Handle -> nat {
    (h: Handle) => Amount(axis, h.alloc)
  }

  ghost function Total(vms: map<Hash, Handle>): Resources {
    Resources(SumBy(HeldOn(Mem), vms), SumBy(HeldOn(Cpus), vms), SumBy(HeldOn(Gpus), vms))
  }

  ghost function KilledCids(vms: map<Hash, Handle>, killed: Hash -> bool): set<nat> {
    set tx | tx in vms && killed(tx) :: vms[tx].cid
  }

  /** The state once the tasks in `tasks` are written off and the VMs in `stopped`
      are gone. */
  ghost function Without(s: Sched, tasks: set<Hash>, stopped: set<Hash>, killed: Hash -> bool): Sched {
    var gone := Restrict(s.vms, stopped);
    var cids := KilledCids(gone, killed);
    s.(running := s.running - tasks,
       vms := s.vms - stopped,
       host := Host(s.host.available.Plus(Total(gone)),
                    s.host.provider.(cids := s.host.provider.cids - cids,
                                     registry := s.host.provider.registry - cids)),
       ledger := s.ledger.(reaped := s.ledger.reaped + Bag(Restrict(s.running, tasks))))
  }

  ghost function ZombieTasks(s: Sched, o: Observation): set<Hash> {
    set tx | tx in s.running && !Healthy(s, tx, o)
  }

  ghost function DoomedVms(s: Sched, o: Observation): set<Hash> {
    set tx | tx in s.vms && !Survives(s, tx, o)
  }

  /** One round of reaping: unhealthy tasks are written off with their VM, and a VM
      that runs no task goes when it has been up too long. */
  ghost function Reap(s: Sched, o: Observation): Sched {
    Without(s, ZombieTasks(s, o), DoomedVms(s, o), o.killed)
  }

  // ---------------------------------------------------------------- whole runs

  datatype Op =
    | EnqueueOp(task: Task, attempt: Attempt)
    | PendingOp(attempts: nat -> Attempt)
    | RequestOp(tx: Hash, killed: bool)
    | SubmitOp(tx: Hash, result: VmResult, delivered: bool, killed: bool)
    | ReapOp(o: Observation)

  ghost function Apply(s: Sched, op: Op): Sched {
    match op
    case EnqueueOp(task, attempt) => Enqueue(s, task, attempt)
    case PendingOp(attempts) => PendingPass(s, s.pending, attempts, 0)
    case RequestOp(tx, killed) => GetPendingTask(s, tx, killed)
    case SubmitOp(tx, result, delivered, killed) => SubmitResult(s, tx, result, delivered, killed)
    case ReapOp(o) => Reap(s, o)
  }

  ghost function ApplyAll(s: Sched, ops: seq<Op>): Sched {
    if ops == [] then s else Apply(ApplyAll(s, DropLast(ops)), Last(ops))
  }

  function Initial(total: Resources): Sched {
    Sched(Host(total, Provider(4, {}, map[])), [], map[], map[], map[],
          Ledger(multiset{}, multiset{}, multiset{}, multiset{}, multiset{}))
  }
}
