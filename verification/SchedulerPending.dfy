/** How long a pending program can wait for an attempt at starting it. */
module SchedulerPending {
  import opened Transactions
  import opened SchedulerModel

  type Pending = (Hash, Hash)

  /** The queue after a turn that starts its first `k` programs and fails at the next. */
  function AfterTurn(q: seq<Pending>, k: nat): seq<Pending>
    requires k <= |q|
  {
    if k == |q| then [] else q[k + 1..] + [q[k]]
  }

  /** How many programs a turn starts before the first failure. */
  ghost function StartedInTurn(s: Sched, todo: seq<Pending>, attempts: nat -> Attempt, i: nat): nat
    decreases |todo|
  {
    if todo == [] then 0
    else
      var (tx, program) := todo[0];
      var popped := if s.pending == [] then s else s.(pending := s.pending[1..]);
      var (host, r) := StartProgram(popped.host, tx, program, attempts(i));
      if r.Started? then 1 + StartedInTurn(Install(popped.(host := host), tx, r.handle), todo[1..], attempts, i + 1)
      else 0
  }

  /** The copy and the queue pop in lockstep: a turn starts a prefix of the queue,
      sends only the first failure to the back, and loses nothing. */
  lemma {:induction false} TurnRotates(s: Sched, attempts: nat -> Attempt, i: nat)
    ensures var k := StartedInTurn(s, s.pending, attempts, i);
            k <= |s.pending| && PendingPass(s, s.pending, attempts, i).pending == AfterTurn(s.pending, k)
    decreases |s.pending|
  {
    if s.pending != [] {
      var (tx, program) := s.pending[0];
      var popped := s.(pending := s.pending[1..]);
      var (host, r) := StartProgram(popped.host, tx, program, attempts(i));
      if r.Started? {
        var next := Install(popped.(host := host), tx, r.handle);
        TurnRotates(next, attempts, i + 1);
        var k := StartedInTurn(next, next.pending, attempts, i + 1);
        RotateTail(s.pending, k);
      } else {
        assert s.pending[0] == (tx, program);
      }
    }
  }

  lemma RotateTail(q: seq<Pending>, k: nat)
    requires q != [] && k <= |q| - 1
    ensures AfterTurn(q[1..], k) == AfterTurn(q, k + 1)
  {
  }

  /** Each started program has its VM afterwards. */
  lemma {:induction false} StartedHaveVms(s: Sched, attempts: nat -> Attempt, i: nat, j: nat)
    requires j < StartedInTurn(s, s.pending, attempts, i) <= |s.pending|
    ensures s.pending[j].0 in PendingPass(s, s.pending, attempts, i).vms
    decreases |s.pending|
  {
    var (tx, program) := s.pending[0];
    var popped := s.(pending := s.pending[1..]);
    var (host, r) := StartProgram(popped.host, tx, program, attempts(i));
    var next := Install(popped.(host := host), tx, r.handle);
    PassKeepsVms(next, next.pending, attempts, i + 1, tx);
    if j > 0 {
      StartedHaveVms(next, attempts, i + 1, j - 1);
    }
  }

  lemma {:induction false} PassKeepsVms(s: Sched, todo: seq<Pending>, attempts: nat -> Attempt, i: nat, tx: Hash)
    requires tx in s.vms
    ensures tx in PendingPass(s, todo, attempts, i).vms
    decreases |todo|
  {
    if todo != [] {
      var (tx0, program) := todo[0];
      var popped := if s.pending == [] then s else s.(pending := s.pending[1..]);
      var (host, r) := StartProgram(popped.host, tx0, program, attempts(i));
      if r.Started? {
        PassKeepsVms(Install(popped.(host := host), tx0, r.handle), todo[1..], attempts, i + 1, tx);
      }
    }
  }

  // ---------------------------------------------------------------- bounded wait

  /** What the operations between two turns can do to the queue: append. */
  lemma OthersAppend(s: Sched, op: Op)
    requires !op.PendingOp?
    ensures s.pending <= Apply(s, op).pending
  {
  }

  /** An item behind the first failure moves forward by what was popped. */
  lemma TurnAdvances(q: seq<Pending>, k: nat, pos: nat)
    requires k < pos < |q|
    ensures pos - k - 1 < |AfterTurn(q, k)| && AfterTurn(q, k)[pos - k - 1] == q[pos]
  {
  }

  function Turns(ops: seq<Op>): nat {
    if ops == [] then 0 else (if ops[0].PendingOp? then 1 else 0) + Turns(ops[1..])
  }

  /** What one operation tries at the front of the queue: in a turn, the programs it
      starts and the first failure. */
  ghost function Passed(s: Sched, op: Op): nat {
    if op.PendingOp? then StartedInTurn(s, s.pending, op.attempts, 0) + 1 else 0
  }

  /** An item that is not tried keeps its place, less what went from before it. */
  lemma FollowsTheItem(s: Sched, op: Op, pos: nat)
    requires Passed(s, op) <= pos < |s.pending|
    ensures var pos' := pos - Passed(s, op);
            pos' < |Apply(s, op).pending| && Apply(s, op).pending[pos'] == s.pending[pos]
  {
    if op.PendingOp? {
      TurnRotates(s, op.attempts, 0);
      TurnAdvances(s.pending, StartedInTurn(s, s.pending, op.attempts, 0), pos);
    } else {
      OthersAppend(s, op);
    }
  }

  ghost function ApplySeq(s: Sched, ops: seq<Op>): Sched
    decreases |ops|
  {
    if ops == [] then s else ApplySeq(Apply(s, ops[0]), ops[1..])
  }

  /** Operation `i` finds the item at position `p` and tries it. */
  ghost predicate TriedAt(s: Sched, ops: seq<Op>, i: nat, p: nat, item: Pending) {
    i < |ops| &&
    var before := ApplySeq(s, ops[..i]);
    p < |before.pending| && before.pending[p] == item && p < Passed(before, ops[i])
  }

  lemma TriedLater(s: Sched, ops: seq<Op>, next: Sched, i: nat, p: nat, item: Pending)
    requires ops != [] && next == Apply(s, ops[0]) && TriedAt(next, ops[1..], i, p, item)
    ensures TriedAt(s, ops, i + 1, p, item)
  {
    assert ops[..i + 1][0] == ops[0] && ops[..i + 1][1..] == ops[1..][..i];
  }

  /** Bounded wait: whatever else happens, an item at position `pos` is tried within
      `pos + 1` turns, and so within as many turns as the queue is long. */
  lemma {:induction false} TriedInTime(s: Sched, ops: seq<Op>, pos: nat) returns (i: nat, p: nat)
    requires pos < |s.pending| && pos < Turns(ops)
    ensures TriedAt(s, ops, i, p, s.pending[pos])
    decreases |ops|
  {
    var k := Passed(s, ops[0]);
    if pos < k {
      assert ApplySeq(s, ops[..0]) == s;
      return 0, pos;
    }
    var next := Apply(s, ops[0]);
    FollowsTheItem(s, ops[0], pos);
    i, p := TriedInTime(next, ops[1..], pos - k);
    TriedLater(s, ops, next, i, p, s.pending[pos]);
    i := i + 1;
  }

  // ---------------------------------------------------------------- rotation

  ghost predicate AllFail(s: Sched, ops: seq<Op>)
    decreases |ops|
  {
    ops == [] ||
    (ops[0].PendingOp? && StartedInTurn(s, s.pending, ops[0].attempts, 0) == 0
     && AllFail(Apply(s, ops[0]), ops[1..]))
  }

  lemma {:induction false} FailuresRotate(s: Sched, ops: seq<Op>)
    requires AllFail(s, ops) && |ops| <= |s.pending|
    ensures ApplySeq(s, ops).pending == s.pending[|ops|..] + s.pending[..|ops|]
    decreases |ops|
  {
    if ops != [] {
      var q := s.pending;
      TurnRotates(s, ops[0].attempts, 0);
      var s' := Apply(s, ops[0]);
      assert s'.pending == q[1..] + [q[0]];
      FailuresRotate(s', ops[1..]);
      RotateOnce(q, |ops| - 1);
    }
  }

  lemma RotateOnce(q: seq<Pending>, n: nat)
    requires n < |q|
    ensures var r := q[1..] + [q[0]];
            r[n..] + r[..n] == q[n + 1..] + q[..n + 1]
  {
  }

  /** As many failing turns as there are pending programs restore the order. */
  lemma FullRotationRestores(s: Sched, ops: seq<Op>)
    requires AllFail(s, ops) && |ops| == |s.pending|
    ensures ApplySeq(s, ops).pending == s.pending
  {
    FailuresRotate(s, ops);
  }
}
