/** The workflow engine: climb from a transaction to the Run it belongs to, then
    decide what is to be computed next. */
module Workflow {
  import opened Basics
  import opened Transactions
  import opened Ancestry
  import opened SchedulerModel

  type Store = map<Hash, Tx>

  datatype WorkflowError =
    | IncompatibleTransaction
    | WorkflowTransactionMissing
    | WorkflowStepMissing
    | TransactionNotFound(hash: Hash)
    | FileDefinitionError(fileName: string)
    | StorageFailed

  /** `Panics` is an index past the end of the workflow. */
  datatype Next =
    | NewTask(task: Task)
    | NoTask
    | Failed(error: WorkflowError)
    | Panics

  type Steps = seq<WorkflowStep>

  /** The links the climb follows: Proofs and ProofKeys lead on, the rest stops it. */
  function Links(store: Store): Parents {
    map h | h in store && (store[h].payload.Proof? || store[h].payload.ProofKey?) :: store[h].payload.parent
  }

  /** What is found where the climb stops. */
  function AtTop(store: Store, h: Hash): Result<Option<Steps>, WorkflowError> {
    if h !in store then Err(TransactionNotFound(h))
    else match store[h].payload
      case Run(steps) => Ok(Some(steps))
      case Verification(_, _, _) => Ok(None)
      case Deploy(_, _) => Ok(None)
      case _ => Err(IncompatibleTransaction)
  }

  ghost function WorkflowOf(store: Store, h: Hash): Result<Option<Steps>, WorkflowError>
    requires Grounded(Links(store), h)
  {
    AtTop(store, Top(Links(store), h))
  }

  /** The first step that runs `program`. */
  function Position(steps: Steps, program: Hash): (r: Option<nat>)
    ensures r.Some? ==> r.value < |steps| && steps[r.value].program == program
                        && forall j :: 0 <= j < r.value ==> steps[j].program != program
    ensures r.None? ==> forall j :: 0 <= j < |steps| ==> steps[j].program != program
  {
    if steps == [] then None
    else if steps[0].program == program then Some(0)
    else
      var rest := Position(steps[1..], program);
      assert forall j :: 1 <= j < |steps| ==> steps[j] == steps[1..][j - 1];
      if rest.Some? then Some(rest.value + 1) else None
  }

  /** Files for the VM: an input comes with the transaction, an output of an earlier
      program must be among the files of the parent. The first one missing is reported. */
  function TaskFiles(tx: Hash, inputs: seq<ProgramData>, files: seq<string>): Result<seq<TaskFile>, WorkflowError> {
    if inputs == [] then Ok([])
    else
      match inputs[0]
      case Output(_, name) =>
        if name !in files then Err(FileDefinitionError(name))
        else Prepend(TaskFile(name, tx, true), TaskFiles(tx, inputs[1..], files))
      case Input(name) => Prepend(TaskFile(name, tx, false), TaskFiles(tx, inputs[1..], files))
  }

  function Prepend(f: TaskFile, rest: Result<seq<TaskFile>, WorkflowError>): Result<seq<TaskFile>, WorkflowError> {
    if rest.Ok? then Ok([f] + rest.value) else rest
  }

  ghost predicate Available(input: ProgramData, files: seq<string>) {
    input.Output? ==> input.fileName in files
  }

  /** One file per input, in order and from where the input says; otherwise the first
      input that is not available is the one reported. */
  lemma {:induction false} FilesFollowInputs(tx: Hash, inputs: seq<ProgramData>, files: seq<string>)
    ensures match TaskFiles(tx, inputs, files)
            case Ok(out) =>
              && |out| == |inputs|
              && forall k :: 0 <= k < |inputs| ==>
                   Available(inputs[k], files) && out[k] == TaskFile(inputs[k].fileName, tx, inputs[k].Output?)
            case Err(e) =>
              exists k :: 0 <= k < |inputs| && !Available(inputs[k], files)
                          && e == FileDefinitionError(inputs[k].fileName)
                          && forall j :: 0 <= j < k ==> Available(inputs[j], files)
  {
    if inputs != [] {
      FilesFollowInputs(tx, inputs[1..], files);
      match TaskFiles(tx, inputs, files) {
        case Ok(_) =>
        case Err(e) =>
          if Available(inputs[0], files) {
            var k :| 0 <= k < |inputs[1..]| && !Available(inputs[1..][k], files)
                     && e == FileDefinitionError(inputs[1..][k].fileName)
                     && forall j :: 0 <= j < k ==> Available(inputs[1..][j], files);
            assert inputs[k + 1] == inputs[1..][k];
            assert forall j :: 1 <= j < k + 1 ==> inputs[j] == inputs[1..][j - 1];
          }
      }
    }
  }

  function StepToTask(tx: Hash, step: WorkflowStep, files: seq<string>, kind: TaskKind, id: nat): Next {
    match TaskFiles(tx, step.inputs, files)
    case Ok(taskFiles) => NewTask(Task(id, tx, kind, step.program, step.args, taskFiles))
    case Err(e) => Failed(e)
  }

  function AfterProof(tx: Hash, steps: Steps, prover: Hash, files: seq<string>, id: nat): Next {
    match Position(steps, prover)
    case None => Failed(WorkflowStepMissing)
    case Some(i) =>
      if |steps| <= i + 1 then Failed(WorkflowStepMissing)
      else StepToTask(tx, steps[i + 1], files, VerificationTask, id)
  }

  /** As `AfterProof`, but the bound that is checked is one short. */
  function AfterProofKey(tx: Hash, steps: Steps, prover: Hash, files: seq<string>, id: nat): Next {
    match Position(steps, prover)
    case None => Failed(WorkflowStepMissing)
    case Some(i) =>
      if |steps| <= i then Failed(WorkflowStepMissing)
      else if |steps| == i + 1 then Panics
      else StepToTask(tx, steps[i + 1], files, VerificationTask, id)
  }

  /** The decision, given what the climb found. */
  function Decide(store: Store, tx: Tx, found: Result<Option<Steps>, WorkflowError>, id: nat): Next {
    match found
    case Err(e) => Failed(e)
    case Ok(workflow) =>
      match tx.payload
      case Run(steps) =>
        if steps == [] then NoTask else StepToTask(tx.hash, steps[0], [], ProofTask, id)
      case Proof(_, prover, files) =>
        if workflow.None? then Failed(WorkflowTransactionMissing)
        else AfterProof(tx.hash, workflow.value, prover, files, id)
      case ProofKey(parent) =>
        if parent !in store then Failed(WorkflowTransactionMissing)
        else (match store[parent].payload
              case Proof(_, prover, files) =>
                if workflow.None? then Failed(WorkflowTransactionMissing)
                else AfterProofKey(store[parent].hash, workflow.value, prover, files, id)
              case _ => Failed(IncompatibleTransaction))
      case Verification(_, _, _) => NoTask
      case Deploy(_, _) => NoTask
      case _ => Failed(IncompatibleTransaction)
  }

  ghost function NextTask(store: Store, tx: Tx, id: nat): Next
    requires Grounded(Links(store), tx.hash)
  {
    Decide(store, tx, WorkflowOf(store, tx.hash), id)
  }

  /** Transactions that are done once they are looked at. */
  predicate ExecutesAtOnce(p: Payload) {
    p.Verification? || p.Deploy?
  }

  class Engine {
    var txs: Store
    var executed: set<Hash>

    constructor (txs: Store)
      ensures this.txs == txs && executed == {}
    {
      this.txs := txs;
      executed := {};
    }

    /** Climb until something other than a Proof or ProofKey is met. It ends for
        exactly the grounded hashes. */
    method WorkflowForTransaction(hash: Hash) returns (r: Result<Option<Steps>, WorkflowError>)
      requires Grounded(Links(txs), hash)
      ensures r == WorkflowOf(txs, hash)
    {
      ghost var p := Links(txs);
      var cur := hash;
      while true
        invariant Grounded(p, cur) && Top(p, cur) == Top(p, hash)
        decreases Height(p, cur)
      {
        if cur !in p {
          GroundedTop(p, cur);
        } else {
          GroundedStep(p, cur);
        }
        if cur !in txs {
          return Err(TransactionNotFound(cur));
        }
        match txs[cur].payload {
          case Run(steps) => return Ok(Some(steps));
          case Proof(parent, _, _) => cur := parent;
          case ProofKey(parent) => cur := parent;
          case Verification(_, _, _) => return Ok(None);
          case Deploy(_, _) => return Ok(None);
          case _ => return Err(IncompatibleTransaction);
        }
      }
    }

    /** `marked` tells whether storage accepts that a transaction is marked executed. */
    method ComputeNextTask(tx: Tx, id: nat, marked: bool) returns (next: Next)
      requires Grounded(Links(txs), tx.hash)
      modifies this`executed
      ensures var done := WorkflowOf(txs, tx.hash).Ok? && ExecutesAtOnce(tx.payload);
              && next == (if done && !marked then Failed(StorageFailed) else NextTask(txs, tx, id))
              && executed == if done && marked then old(executed) + {tx.hash} else old(executed)
    {
      var found := WorkflowForTransaction(tx.hash);
      if found.Ok? && ExecutesAtOnce(tx.payload) {
        if !marked {
          return Failed(StorageFailed);
        }
        executed := executed + {tx.hash};
      }
      next := Decide(txs, tx, found, id);
    }
  }

  // ---------------------------------------------------------------- the climb

  /** Every Proof and ProofKey below a Run, at whatever depth, gets that Run's
      workflow; cycles elsewhere in the store do not matter. */
  lemma DescendantsShareTheWorkflow(store: Store, h: Hash, run: Hash, n: nat)
    requires Up(Links(store), h, n) == Some(run) && run in store && store[run].payload.Run?
    ensures Grounded(Links(store), h) && WorkflowOf(store, h) == Ok(Some(store[run].payload.steps))
  {
    assert TopAt(Links(store), h, n);
    HeightIs(Links(store), h, n);
  }

  /** A workflow is found for a hash exactly when it descends from a Run. */
  lemma WorkflowFoundIff(store: Store, h: Hash, steps: Steps)
    requires Grounded(Links(store), h)
    ensures WorkflowOf(store, h) == Ok(Some(steps)) <==>
            exists n: nat, run: Hash :: Up(Links(store), h, n) == Some(run) && run in store
                                        && store[run].payload == Run(steps)
  {
    var p := Links(store);
    if WorkflowOf(store, h) == Ok(Some(steps)) {
      assert Up(p, h, Height(p, h)) == Some(Top(p, h));
    }
    if n: nat, run: Hash :| Up(p, h, n) == Some(run) && run in store && store[run].payload == Run(steps) {
      DescendantsShareTheWorkflow(store, h, run, n);
    }
  }

  // ---------------------------------------------------------------- progress

  lemma PositionOfStep(steps: Steps, i: nat)
    requires DistinctPrograms(steps) && i < |steps|
    ensures Position(steps, steps[i].program) == Some(i)
  {
    assert Position(steps, steps[i].program).Some?;
  }

  /** With distinct programs, a Proof made by step i leads to step i + 1 and nothing
      else, or to the report that there is no such step. */
  lemma ProofLeadsToNextStep(store: Store, tx: Tx, run: Hash, n: nat, i: nat, id: nat)
    requires Up(Links(store), tx.hash, n) == Some(run) && run in store && store[run].payload.Run?
    requires tx.payload.Proof?
    requires var steps := store[run].payload.steps;
             DistinctPrograms(steps) && i < |steps| && tx.payload.prover == steps[i].program
    ensures Grounded(Links(store), tx.hash)
    ensures var steps := store[run].payload.steps;
            NextTask(store, tx, id) ==
            if i + 1 < |steps| then StepToTask(tx.hash, steps[i + 1], tx.payload.files, VerificationTask, id)
            else Failed(WorkflowStepMissing)
  {
    DescendantsShareTheWorkflow(store, tx.hash, run, n);
    PositionOfStep(store[run].payload.steps, i);
  }

  /** The answer for one step of a workflow: the task, field by field, if and only if all
      outputs it reads are there; otherwise the first that is not. */
  ghost predicate Answers(next: Next, id: nat, tx: Hash, kind: TaskKind, step: WorkflowStep, files: seq<string>) {
    && (next.NewTask? <==> forall k :: 0 <= k < |step.inputs| ==> Available(step.inputs[k], files))
    && (next.NewTask? ==>
          var t := next.task;
          && t.id == id && t.tx == tx && t.kind == kind && t.program == step.program && t.args == step.args
          && |t.files| == |step.inputs|
          && forall k :: 0 <= k < |step.inputs| ==>
               t.files[k] == TaskFile(step.inputs[k].fileName, tx, step.inputs[k].Output?))
    && (!next.NewTask? ==>
          exists k :: 0 <= k < |step.inputs| && !Available(step.inputs[k], files)
                      && next == Failed(FileDefinitionError(step.inputs[k].fileName))
                      && forall j :: 0 <= j < k ==> Available(step.inputs[j], files))
  }

  lemma StepAnswers(tx: Hash, step: WorkflowStep, files: seq<string>, kind: TaskKind, id: nat)
    ensures Answers(StepToTask(tx, step, files, kind, id), id, tx, kind, step, files)
  {
    FilesFollowInputs(tx, step.inputs, files);
  }

  /** A Run is answered with its first step, to be proved. */
  lemma RunAnswered(store: Store, tx: Tx, id: nat)
    requires tx.hash in store && store[tx.hash] == tx && tx.payload.Run?
    ensures Grounded(Links(store), tx.hash)
    ensures var steps := tx.payload.steps;
            && (steps == [] ==> NextTask(store, tx, id) == NoTask)
            && (steps != [] ==> Answers(NextTask(store, tx, id), id, tx.hash, ProofTask, steps[0], []))
  {
    GroundedTop(Links(store), tx.hash);
    if tx.payload.steps != [] {
      StepAnswers(tx.hash, tx.payload.steps[0], [], ProofTask, id);
    }
  }

  /** A Proof below a Run is answered with the step after the first that has its prover,
      to be verified with the files of the Proof; or it is told that there is none. */
  lemma ProofAnswered(store: Store, tx: Tx, run: Hash, n: nat, id: nat)
    requires Up(Links(store), tx.hash, n) == Some(run) && run in store && store[run].payload.Run? && tx.payload.Proof?
    ensures Grounded(Links(store), tx.hash)
    ensures var steps, i := store[run].payload.steps, Position(store[run].payload.steps, tx.payload.prover);
            && (i.Some? && i.value + 1 < |steps| ==>
                  Answers(NextTask(store, tx, id), id, tx.hash, VerificationTask, steps[i.value + 1], tx.payload.files))
            && (i.None? || i.value + 1 == |steps| ==> NextTask(store, tx, id) == Failed(WorkflowStepMissing))
  {
    var steps, i := store[run].payload.steps, Position(store[run].payload.steps, tx.payload.prover);
    DescendantsShareTheWorkflow(store, tx.hash, run, n);
    if i.Some? && i.value + 1 < |steps| {
      StepAnswers(tx.hash, steps[i.value + 1], tx.payload.files, VerificationTask, id);
    }
  }

  /** A ProofKey is answered as its Proof is, with a task for the Proof, except that it
      runs past the workflow where the Proof is told that there is no step. */
  lemma ProofKeyAnswered(store: Store, tx: Tx, proof: Tx, run: Hash, n: nat, id: nat)
    requires tx.hash in store && store[tx.hash] == tx && tx.payload == ProofKey(proof.hash)
    requires proof.hash in store && store[proof.hash] == proof && proof.payload.Proof?
    requires Up(Links(store), proof.hash, n) == Some(run) && run in store && store[run].payload.Run?
    ensures Grounded(Links(store), tx.hash)
    ensures var steps, i := store[run].payload.steps, Position(store[run].payload.steps, proof.payload.prover);
            && (i.Some? && i.value + 1 < |steps| ==>
                  Answers(NextTask(store, tx, id), id, proof.hash, VerificationTask, steps[i.value + 1], proof.payload.files))
            && (i.Some? && i.value + 1 == |steps| ==> NextTask(store, tx, id) == Panics)
            && (i.None? ==> NextTask(store, tx, id) == Failed(WorkflowStepMissing))
  {
    DescendantsShareTheWorkflow(store, proof.hash, run, n);
    ProofAnswered(store, proof, run, n, id);
    ProofKeyPanicsIff(store, tx, proof, id);
  }

  /** Deploys and Verifications need nothing more; the other payloads are refused. */
  lemma OthersGetNoTask(store: Store, tx: Tx, id: nat)
    requires tx.hash in store && store[tx.hash] == tx
    requires !tx.payload.Run? && !tx.payload.Proof? && !tx.payload.ProofKey?
    ensures Grounded(Links(store), tx.hash)
    ensures NextTask(store, tx, id) ==
            if tx.payload.Deploy? || tx.payload.Verification? then NoTask else Failed(IncompatibleTransaction)
  {
    GroundedTop(Links(store), tx.hash);
  }

  /** A Proof that does not descend from a Run: its climb ends at something that is not
      stored, at a Deploy or Verification, or at something that has no workflow. */
  lemma ProofWithoutRun(store: Store, tx: Tx, top: Hash, n: nat, id: nat)
    requires tx.payload.Proof? && Up(Links(store), tx.hash, n) == Some(top)
    requires top in store ==> !store[top].payload.Run? && !store[top].payload.Proof? && !store[top].payload.ProofKey?
    ensures Grounded(Links(store), tx.hash)
    ensures NextTask(store, tx, id) == Failed(
              if top !in store then TransactionNotFound(top)
              else if store[top].payload.Deploy? || store[top].payload.Verification? then WorkflowTransactionMissing
              else IncompatibleTransaction)
  {
    HeightIs(Links(store), tx.hash, n);
  }

  /** A ProofKey fails by running past the workflow exactly when the Proof it belongs
      to was made by the last step; otherwise it agrees with that Proof. */
  lemma ProofKeyPanicsIff(store: Store, tx: Tx, proof: Tx, id: nat)
    requires tx.hash in store && store[tx.hash] == tx && tx.payload == ProofKey(proof.hash)
    requires proof.hash in store && store[proof.hash] == proof && proof.payload.Proof?
    requires Grounded(Links(store), proof.hash)
    ensures Grounded(Links(store), tx.hash)
    ensures NextTask(store, tx, id) == Panics <==>
            var w := WorkflowOf(store, proof.hash);
            w.Ok? && w.value.Some? && w.value.value != []
            && Position(w.value.value, proof.payload.prover) == Some(|w.value.value| - 1)
    ensures NextTask(store, tx, id) != Panics ==> NextTask(store, tx, id) == NextTask(store, proof, id)
  {
    GroundedStep(Links(store), tx.hash);
  }

  /** A Run (1) of the one program 7, its Proof (2), and a ProofKey (3) for that Proof. */
  lemma AProofKeyCanPanic(id: nat) returns (store: Store, tx: Tx)
    ensures tx.hash in store && store[tx.hash] == tx && (forall h :: h in store ==> store[h].hash == h)
    ensures Grounded(Links(store), tx.hash) && NextTask(store, tx, id) == Panics
  {
    var steps := [WorkflowStep(7, [], [])];
    var run, proof := Tx(1, Run(steps)), Tx(2, Proof(1, 7, []));
    tx := Tx(3, ProofKey(2));
    store := map[1 := run, 2 := proof, 3 := tx];
    assert Up(Links(store), 1, 0) == Some(1);
    assert Up(Links(store), 2, 1) == Some(1);
    DescendantsShareTheWorkflow(store, 2, 1, 1);
    assert Position(steps, 7) == Some(0);
    ProofKeyPanicsIff(store, tx, proof, id);
  }

  /** Only a ProofKey can run past the workflow. */
  lemma OnlyProofKeysPanic(store: Store, tx: Tx, id: nat)
    requires Grounded(Links(store), tx.hash) && NextTask(store, tx, id) == Panics
    ensures tx.payload.ProofKey?
  {
  }

  // ---------------------------------------------------------------- with the scheduler

  /** The program that any task for `h` runs, as far as the store tells. */
  ghost function ProgramFor(store: Store, h: Hash): Option<Hash>
    requires Grounded(Links(store), h)
  {
    if h !in store then None
    else match store[h].payload
      case Run(steps) => if steps == [] then None else Some(steps[0].program)
      case Proof(_, prover, _) =>
        (match WorkflowOf(store, h)
         case Ok(Some(steps)) =>
           var i := Position(steps, prover);
           if i.Some? && i.value + 1 < |steps| then Some(steps[i.value + 1].program) else None
         case _ => None)
      case _ => None
  }

  /** Every task is a proving or a verifying one, and its program depends only on the
      transaction it is for, whether a Run, a Proof or a ProofKey gave rise to it. */
  lemma TasksAreDetermined(store: Store, tx: Tx, id: nat)
    requires Grounded(Links(store), tx.hash) && tx.hash in store && store[tx.hash] == tx
    requires forall h :: h in store ==> store[h].hash == h
    requires NextTask(store, tx, id).NewTask?
    ensures var t := NextTask(store, tx, id).task;
            && Doable(t) && t.tx in store && Grounded(Links(store), t.tx)
            && ProgramFor(store, t.tx) == Some(t.program)
  {
    if tx.payload.ProofKey? {
      GroundedStep(Links(store), tx.hash);
    }
  }

  // ---------------------------------------------------------------- chains

  /** What a VM may write: the files of each result in turn. */
  type Results = seq<seq<string>>

  /** The tasks a node runs from `cur` on when each result becomes a transaction with
      a fresh hash, and the next task is computed from that. */
  ghost function NodeChain(store: Store, cur: Tx, hashes: seq<Hash>, results: Results): seq<Task>
    requires |hashes| == |results|
    requires Grounded(Links(store), cur.hash)
    decreases |hashes|
  {
    if hashes == [] then []
    else
      var next := NextTask(store, cur, |hashes|);
      if !next.NewTask? then []
      else
        match ResultPayload(next.task, next.task.program, results[0])
        case None => [next.task]
        case Some(payload) =>
          var made := Tx(hashes[0], payload);
          var store' := store[made.hash := made];
          if Grounded(Links(store'), made.hash) then
            [next.task] + NodeChain(store', made, hashes[1..], results[1..])
          else [next.task]
  }

  lemma VerificationEndsChain(store: Store, tx: Tx, hashes: seq<Hash>, results: Results)
    requires |hashes| == |results| && tx.payload.Verification? && tx.hash in store && store[tx.hash] == tx
    ensures Grounded(Links(store), tx.hash) && NodeChain(store, tx, hashes, results) == []
  {
    GroundedTop(Links(store), tx.hash);
  }

  /** From the Proof on: at most the second step, then the Verification ends it. */
  lemma ChainFromProof(store: Store, run: Tx, proof: Tx, hashes: seq<Hash>, results: Results)
    requires run.hash in store && store[run.hash] == run && run.payload.Run?
    requires DistinctPrograms(run.payload.steps) && run.payload.steps != []
    requires proof.hash in store && store[proof.hash] == proof
    requires proof.payload.Proof? && proof.payload.parent == run.hash
    requires proof.payload.prover == run.payload.steps[0].program
    requires |hashes| == |results| && forall i :: 0 <= i < |hashes| ==> hashes[i] !in store
    ensures Grounded(Links(store), proof.hash)
    ensures var tasks := NodeChain(store, proof, hashes, results);
            var steps := run.payload.steps;
            && |tasks| <= 1
            && (|tasks| == 1 ==> |steps| >= 2 && tasks[0].program == steps[1].program
                                 && tasks[0].kind == VerificationTask && tasks[0].tx == proof.hash)
            && (hashes != [] && |steps| >= 2 && TaskFiles(proof.hash, steps[1].inputs, proof.payload.files).Ok? ==>
                  |tasks| == 1)
  {
    var steps := run.payload.steps;
    assert Up(Links(store), run.hash, 0) == Some(run.hash);
    assert Up(Links(store), proof.hash, 1) == Some(run.hash);
    ProofLeadsToNextStep(store, proof, run.hash, 1, 0, |hashes|);
    if hashes != [] {
      var next := NextTask(store, proof, |hashes|);
      if next.NewTask? {
        var made := Tx(hashes[0], Verification(proof.hash, next.task.program, results[0]));
        VerificationEndsChain(store[made.hash := made], made, hashes[1..], results[1..]);
      }
    }
  }

  /** A chain the node itself produces runs step 0 as a proof, then step 1 as its
      verification, then stops, however long the workflow is; and it gets that far
      whenever the files each step names are there. */
  lemma ChainRunsTwoSteps(store: Store, run: Tx, hashes: seq<Hash>, results: Results)
    requires run.hash in store && store[run.hash] == run && run.payload.Run? && DistinctPrograms(run.payload.steps)
    requires |hashes| == |results| && forall i :: 0 <= i < |hashes| ==> hashes[i] !in store
    requires forall i, j :: 0 <= i < j < |hashes| ==> hashes[i] != hashes[j]
    ensures Grounded(Links(store), run.hash)
    ensures var tasks := NodeChain(store, run, hashes, results);
            var steps := run.payload.steps;
            && |tasks| <= 2 && |tasks| <= |steps|
            && (forall i :: 0 <= i < |tasks| ==> tasks[i].program == steps[i].program)
            && (|tasks| >= 1 ==> tasks[0].kind == ProofTask && tasks[0].tx == run.hash)
            && (|tasks| == 2 ==> tasks[1].kind == VerificationTask && tasks[1].tx == hashes[0])
            && ((|hashes| >= 2 && |steps| >= 2
                 && TaskFiles(run.hash, steps[0].inputs, []).Ok?
                 && TaskFiles(hashes[0], steps[1].inputs, results[0]).Ok?) ==> |tasks| == 2)
  {
    var steps := run.payload.steps;
    GroundedTop(Links(store), run.hash);
    if hashes != [] && steps != [] {
      var next := NextTask(store, run, |hashes|);
      assert next == StepToTask(run.hash, steps[0], [], ProofTask, |hashes|);
      if next.NewTask? {
        var made := Tx(hashes[0], Proof(run.hash, steps[0].program, results[0]));
        var store' := store[made.hash := made];
        assert forall i :: 0 <= i < |hashes[1..]| ==> hashes[1..][i] == hashes[i + 1];
        ChainFromProof(store', run, made, hashes[1..], results[1..]);
        assert NodeChain(store, run, hashes, results) == [next.task] + NodeChain(store', made, hashes[1..], results[1..]);
      }
    }
  }
}
