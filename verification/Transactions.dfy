/** Transactions as the admission pipeline, the workflow engine and the scheduler
    see them: hashes are opaque identifiers, payloads keep the fields that decide
    what happens to a transaction. */
module Transactions {
  import opened Basics

  type Hash = nat

  /** What a workflow step reads: a file of the Run itself, or one that an earlier
      program of the workflow wrote. */
  datatype ProgramData =
    | Input(fileName: string)
    | Output(sourceProgram: Hash, fileName: string)

  datatype WorkflowStep = WorkflowStep(program: Hash, args: seq<string>, inputs: seq<ProgramData>)

  datatype Payload =
    | Empty
    | Transfer
    | Stake
    | Unstake
    | Deploy(prover: Hash, verifier: Hash)
    | Run(steps: seq<WorkflowStep>)
    | Proof(parent: Hash, prover: Hash, files: seq<string>)
    | ProofKey(parent: Hash)
    | Verification(parent: Hash, verifier: Hash, files: seq<string>)
    | Cancel(parent: Hash)

  datatype Tx = Tx(hash: Hash, payload: Payload)

  datatype TaskKind = ProofTask | VerificationTask | PowTask | NopTask

  /** A file handed to the VM: its name there, and where the node keeps it. */
  datatype TaskFile = TaskFile(name: string, tx: Hash, fromOutput: bool)

  datatype Task = Task(id: nat, tx: Hash, kind: TaskKind, program: Hash, args: seq<string>, files: seq<TaskFile>)

  /** The transaction this one has to wait for. A Cancel names a parent but does
      not wait for it. */
  function ParentOf(p: Payload): Option<Hash> {
    match p
    case Proof(parent, _, _) => Some(parent)
    case ProofKey(parent) => Some(parent)
    case Verification(parent, _, _) => Some(parent)
    case _ => None
  }

  function DeployPrograms(p: Payload): seq<Hash> {
    match p
    case Deploy(prover, verifier) => [prover, verifier]
    case _ => []
  }

  function RunPrograms(p: Payload): seq<Hash> {
    match p
    case Run(steps) => seq(|steps|, i requires 0 <= i < |steps| => steps[i].program)
    case _ => []
  }

  ghost predicate DistinctPrograms(steps: seq<WorkflowStep>) {
    forall i, j :: 0 <= i < j < |steps| ==> steps[i].program != steps[j].program
  }

  /** The duplicate-program check of transaction validation. */
  method ValidatePrograms(p: Payload) returns (ok: bool)
    ensures ok <==> (p.Run? ==> DistinctPrograms(p.steps))
  {
    if p.Run? {
      var programs: set<Hash> := {};
      var i := 0;
      while i < |p.steps|
        invariant 0 <= i <= |p.steps|
        invariant programs == set k | 0 <= k < i :: p.steps[k].program
        invariant DistinctPrograms(p.steps[..i])
      {
        if p.steps[i].program in programs {
          return false;
        }
        programs := programs + {p.steps[i].program};
        i := i + 1;
      }
      assert p.steps[..i] == p.steps;
    }
    return true;
  }
}
