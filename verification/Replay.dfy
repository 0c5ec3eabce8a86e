/**
 Over any run the executor's state is the replay of its committed transactions: nonces count them, receipts chain
 their roots, and whatever failed left nothing behind.
 */
module Replay {
  import opened Results
  import opened Model
  import opened Certificates
  import opened Protocol
  import opened Execution

  function After(state: Table, t: Transaction): Table {
    var staged := StageAll(state, t.statement);
    if staged.Ok? then staged.value.state else state
  }

  /** The committed transactions run one after the other from the initial state. */
  function Fold(initial: Table, log: seq<Transaction>): Table {
    if log == [] then initial else After(Fold(initial, log[..|log| - 1]), log[|log| - 1])
  }

  function CountOf(log: seq<Transaction>, caller: string): nat {
    if log == [] then 0
    else CountOf(log[..|log| - 1], caller) + if log[|log| - 1].statement.caller == caller then 1 else 0
  }

  function TotalGas(instructions: seq<Instruction>): int {
    if instructions == [] then 0
    else
      var cost := GasCost(instructions[0].operation);
      (if cost.Some? then cost.value else 0) + TotalGas(instructions[1..])
  }

  lemma {:induction false} StageGas(s: Staged, instructions: seq<Instruction>, gasLimit: int)
    requires Stage(s, instructions, gasLimit).Ok?
    ensures var r := Stage(s, instructions, gasLimit).value;
            && r.gasUsed == s.gasUsed + TotalGas(instructions)
            && (s.gasUsed <= gasLimit ==> r.gasUsed <= gasLimit)
            && |r.events| == |s.events| + |instructions|
    decreases |instructions|
  {
    if instructions != [] {
      StageGas(StageOne(s, instructions[0], gasLimit).value, instructions[1..], gasLimit);
    }
  }

  /** The i-th committed transaction, its place among its caller's, and its receipt. */
  predicate CommittedAt(initial: Table, e: Executor, log: seq<Transaction>, i: nat)
    requires i < |log|
  {
    var t, before := log[i], Fold(initial, log[..i]);
    && t.Verify() && |t.statement.instructions| <= e.maxInstructions
    && t.statement.nonce == CountOf(log[..i], t.statement.caller)
    && StageAll(before, t.statement).Ok?
    && t.txId in e.receipts
    && var staged := StageAll(before, t.statement).value;
    && staged.gasUsed == TotalGas(t.statement.instructions) <= t.statement.gasLimit
    && e.receipts[t.txId] == Receipt(t.txId, StateRoot(before), StateRoot(Fold(initial, log[..i + 1])), staged.gasUsed,
                                     EventsDigest(staged.events), DiffDigest(before, staged.state), true, None)
  }

  predicate ReceiptFiled(e: Executor, log: seq<Transaction>, id: Digest)
    requires id in e.receipts
  {
    && e.receipts[id].txId == id
    && (if e.receipts[id].success then exists i :: 0 <= i < |log| && log[i].txId == id
        else e.receipts[id].preRoot == e.receipts[id].postRoot && e.receipts[id].gasUsed == 0)
  }

  ghost predicate AllCommitted(initial: Table, e: Executor, log: seq<Transaction>) {
    forall i :: 0 <= i < |log| ==> CommittedAt(initial, e, log, i)
  }

  ghost predicate NoncesCount(e: Executor, log: seq<Transaction>) {
    forall caller :: e.NonceOf(caller) == CountOf(log, caller)
  }

  ghost predicate AllFiled(e: Executor, log: seq<Transaction>) { forall id :: id in e.receipts ==> ReceiptFiled(e, log, id) }

  ghost predicate Replays(initial: Table, e: Executor, log: seq<Transaction>) {
    && e.state == Fold(initial, log)
    && NoncesCount(e, log)
    && AllCommitted(initial, e, log)
    && AllFiled(e, log)
  }

  // ----- One transaction

  function LogAfter(e: Executor, log: seq<Transaction>, t: Transaction): seq<Transaction> {
    if t.txId !in e.receipts && e.Attempt(t).Ok? then log + [t] else log
  }

  lemma FoldPrefix(initial: Table, log: seq<Transaction>, t: Transaction)
    ensures Fold(initial, log + [t]) == After(Fold(initial, log), t)
    ensures forall i :: 0 <= i <= |log| ==> (log + [t])[..i] == log[..i]
    ensures forall caller :: CountOf(log + [t], caller) == CountOf(log, caller) + if t.statement.caller == caller then 1 else 0
  {
    assert (log + [t])[..|log|] == log && (log + [t])[|log|] == t;
    forall i | 0 <= i <= |log| ensures (log + [t])[..i] == log[..i] {}
  }

  /** A receipt filed under a new identifier disturbs no earlier commitment. */
  lemma CommitmentStays(initial: Table, e: Executor, q: Executor, log: seq<Transaction>, more: seq<Transaction>, i: nat)
    requires i < |log| && CommittedAt(initial, e, log, i) && q.maxInstructions == e.maxInstructions
    requires forall id :: id in e.receipts ==> id in q.receipts && q.receipts[id] == e.receipts[id]
    ensures CommittedAt(initial, q, log + more, i)
  {
    assert (log + more)[..i] == log[..i] && (log + more)[..i + 1] == log[..i + 1] && (log + more)[i] == log[i];
    hide StageAll, Fold, CountOf, TotalGas;
  }

  lemma FiledStays(e: Executor, q: Executor, log: seq<Transaction>, more: seq<Transaction>, id: Digest)
    requires id in e.receipts && ReceiptFiled(e, log, id) && id in q.receipts && q.receipts[id] == e.receipts[id]
    ensures ReceiptFiled(q, log + more, id)
  {
    if e.receipts[id].success {
      var i :| 0 <= i < |log| && log[i].txId == id;
      assert (log + more)[i].txId == id;
    }
  }

  lemma NewCommitment(initial: Table, e: Executor, log: seq<Transaction>, t: Transaction)
    requires e.state == Fold(initial, log) && NoncesCount(e, log) && t.txId !in e.receipts && e.Attempt(t).Ok?
    ensures var (q, r) := e.Execute(t);
            && CommittedAt(initial, q, log + [t], |log|) && q.state == Fold(initial, log + [t])
            && NoncesCount(q, log + [t])
            && ReceiptFiled(q, log + [t], t.txId)
  {
    FoldPrefix(initial, log, t);
    assert (log + [t])[..|log|] == log && (log + [t])[..|log| + 1] == log + [t] && (log + [t])[|log|] == t;
    StageGas(Staged(e.state, [], 0), t.statement.instructions, t.statement.gasLimit);
    hide Stage, Fold, CountOf, TotalGas;
  }

  /** Executing keeps the replay: a fresh success is committed, anything else leaves the state alone. */
  lemma ExecuteReplays(initial: Table, e: Executor, log: seq<Transaction>, t: Transaction)
    requires Replays(initial, e, log)
    ensures Replays(initial, e.Execute(t).0, LogAfter(e, log, t))
  {
    hide CommittedAt, ReceiptFiled, Fold, Executor.Attempt;
    var q := e.Execute(t).0;
    if t.txId !in e.receipts {
      var log' := LogAfter(e, log, t);
      var more := if e.Attempt(t).Ok? then [t] else [];
      assert log' == log + more;
      if e.Attempt(t).Ok? { NewCommitment(initial, e, log, t); } else { NewFailure(e, log, t); }
      forall i | 0 <= i < |log'| ensures CommittedAt(initial, q, log', i) {
        if i < |log| { CommitmentStays(initial, e, q, log, more, i); }
      }
      forall id | id in q.receipts ensures ReceiptFiled(q, log', id) {
        if id != t.txId { FiledStays(e, q, log, more, id); }
      }
    }
  }

  lemma NewFailure(e: Executor, log: seq<Transaction>, t: Transaction)
    requires t.txId !in e.receipts && e.Attempt(t).Err?
    ensures ReceiptFiled(e.Execute(t).0, log, t.txId) && e.Execute(t).0.state == e.state && e.Execute(t).0.nonces == e.nonces
  {
    hide Executor.Attempt;
  }

  // ----- Batches and runs

  function LogAfterEach(e: Executor, log: seq<Transaction>, ts: seq<Transaction>): seq<Transaction> {
    if ts == [] then log
    else
      var init := ts[..|ts| - 1];
      LogAfter(e.ExecuteEach(init).0, LogAfterEach(e, log, init), ts[|ts| - 1])
  }

  lemma {:induction false} EachReplays(initial: Table, e: Executor, log: seq<Transaction>, ts: seq<Transaction>)
    requires Replays(initial, e, log)
    ensures Replays(initial, e.ExecuteEach(ts).0, LogAfterEach(e, log, ts))
  {
    hide Replays, Executor.Execute, LogAfter;
    if ts != [] {
      var init := ts[..|ts| - 1];
      EachReplays(initial, e, log, init);
      ExecuteReplays(initial, e.ExecuteEach(init).0, LogAfterEach(e, log, init), ts[|ts| - 1]);
    }
  }

  datatype Operation =
    | Execute(t: Transaction)
    | ExecuteBatch(ts: seq<Transaction>)
    | ExecuteForCapsule(t: Transaction, c: Capsule, proof: Proof, p: ProtocolState)

  datatype Run = Run(e: Executor, log: seq<Transaction>)

  ghost function Step(r: Run, op: Operation): Run {
    match op
    case Execute(t) => Run(r.e.Execute(t).0, LogAfter(r.e, r.log, t))
    case ExecuteBatch(ts) =>
      var o := r.e.ExecuteBatch(ts);
      Run(o.0, if o.1.Ok? then LogAfterEach(r.e, r.log, ts) else r.log)
    case ExecuteForCapsule(t, c, proof, p) =>
      var o := r.e.ExecuteForCapsule(t, c, proof, p);
      Run(o.0, if o.1.Ok? then LogAfter(r.e, r.log, t) else r.log)
  }

  ghost function RunAll(r: Run, ops: seq<Operation>): Run {
    if ops == [] then r else Step(RunAll(r, ops[..|ops| - 1]), ops[|ops| - 1])
  }

  /** The transaction goes through here, or is known to have gone through before. */
  predicate Succeeds(e: Executor, t: Transaction) {
    if t.txId in e.receipts then e.receipts[t.txId].success else e.Attempt(t).Ok?
  }

  lemma ReceiptSucceeds(e: Executor, t: Transaction)
    ensures e.Execute(t).1.success <==> Succeeds(e, t)
  {
    hide Executor.Attempt;
  }

  /** Transaction i succeeds where those before it leave the executor. */
  predicate SucceedsAt(e: Executor, ts: seq<Transaction>, i: nat)
    requires i < |ts|
  {
    Succeeds(e.ExecuteEach(ts[..i]).0, ts[i])
  }

  lemma {:induction false} EachSucceeds(e: Executor, ts: seq<Transaction>, i: nat)
    requires i < |ts|
    ensures |e.ExecuteEach(ts).1| == |ts| && (e.ExecuteEach(ts).1[i].success <==> SucceedsAt(e, ts, i))
    decreases |ts|
  {
    hide Executor.Execute, Succeeds;
    var n := |ts| - 1;
    ReceiptCount(e, ts[..n]);
    if i < n {
      EachSucceeds(e, ts[..n], i);
      assert ts[..n][..i] == ts[..i];
    } else {
      ReceiptSucceeds(e.ExecuteEach(ts[..n]).0, ts[n]);
    }
  }

  lemma {:induction false} ReceiptCount(e: Executor, ts: seq<Transaction>)
    ensures |e.ExecuteEach(ts).1| == |ts|
  {
    hide Executor.Execute;
    if ts != [] { ReceiptCount(e, ts[..|ts| - 1]); }
  }

  /**
   A batch goes through exactly when every transaction of it succeeds in the state the ones before it leave; it then
   leaves the state they all leave, and otherwise state, nonces and receipts exactly as they were.
   */
  lemma BatchAllOrNothing(e: Executor, ts: seq<Transaction>)
    ensures var (after, r) := e.ExecuteBatch(ts);
            && (r.Ok? <==> ts != [] && forall i :: 0 <= i < |ts| ==> SucceedsAt(e, ts, i))
            && after == if r.Ok? then e.ExecuteEach(ts).0 else e
  {
    hide Executor.ExecuteEach, SucceedsAt;
    ReceiptCount(e, ts);
    forall i | 0 <= i < |ts| ensures e.ExecuteEach(ts).1[i].success <==> SucceedsAt(e, ts, i) { EachSucceeds(e, ts, i); }
  }

  lemma StepReplays(initial: Table, r: Run, op: Operation)
    requires Replays(initial, r.e, r.log)
    ensures var q := Step(r, op); Replays(initial, q.e, q.log)
  {
    hide Replays, Executor.Execute, Executor.ExecuteEach, LogAfter, LogAfterEach, Executor.FitsCapsule;
    match op
    case Execute(t) => ExecuteReplays(initial, r.e, r.log, t);
    case ExecuteBatch(ts) => EachReplays(initial, r.e, r.log, ts);
    case ExecuteForCapsule(t, c, proof, p) => ExecuteReplays(initial, r.e, r.log, t);
  }

  lemma {:induction false} RunReplays(initial: Table, maxInstructions: int, ops: seq<Operation>)
    ensures var q := RunAll(Run(Executor(maxInstructions, initial, map[], map[]), []), ops); Replays(initial, q.e, q.log)
  {
    hide Step;
    if ops == [] {
      hide CommittedAt, ReceiptFiled;
    } else {
      hide Replays;
      RunReplays(initial, maxInstructions, ops[..|ops| - 1]);
      StepReplays(initial, RunAll(Run(Executor(maxInstructions, initial, map[], map[]), []), ops[..|ops| - 1]), ops[|ops| - 1]);
    }
  }

  // ----- What a replay means

  lemma CommittedFact(initial: Table, e: Executor, log: seq<Transaction>, i: nat)
    requires Replays(initial, e, log) && i < |log|
    ensures CommittedAt(initial, e, log, i)
  {
    hide CommittedAt;
  }

  lemma {:induction false} CountGrows(log: seq<Transaction>, i: nat, j: nat, caller: string)
    requires i <= j <= |log|
    ensures CountOf(log[..i], caller) <= CountOf(log[..j], caller)
    decreases j
  {
    if i < j {
      assert log[..j][..j - 1] == log[..j - 1];
      CountGrows(log, i, j - 1, caller);
    }
  }

  /** One caller's transactions commit in the order of their nonces, and no transaction commits twice. */
  lemma NoncesInOrder(initial: Table, e: Executor, log: seq<Transaction>, i: nat, j: nat)
    requires Replays(initial, e, log) && i < j < |log|
    ensures log[i].statement.caller == log[j].statement.caller ==> log[i].statement.nonce < log[j].statement.nonce
    ensures log[i].txId != log[j].txId
  {
    CommittedFact(initial, e, log, i);
    CommittedFact(initial, e, log, j);
    hide Replays;
    var caller := log[i].statement.caller;
    assert log[..i + 1][..i] == log[..i];
    CountGrows(log, i + 1, j, caller);
    hide StageAll, Fold, TotalGas;
  }

  /** Each committed transaction starts from the root its predecessor's receipt ended with. */
  lemma RootsChain(initial: Table, e: Executor, log: seq<Transaction>, i: nat)
    requires Replays(initial, e, log) && i + 1 < |log|
    ensures log[i].txId in e.receipts && log[i + 1].txId in e.receipts
    ensures e.receipts[log[i].txId].postRoot == e.receipts[log[i + 1].txId].preRoot
    ensures i == 0 ==> e.receipts[log[i].txId].preRoot == StateRoot(initial)
    ensures i + 2 == |log| ==> e.receipts[log[i + 1].txId].postRoot == e.Root()
  {
    CommittedFact(initial, e, log, i);
    CommittedFact(initial, e, log, i + 1);
    assert log[..|log|] == log && log[..0] == [];
    hide AllCommitted, NoncesCount, AllFiled, StageAll, CountOf, TotalGas;
  }
}
