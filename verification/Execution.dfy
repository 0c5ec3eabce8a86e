/**
 The deterministic executor (mosaic/execution.py): a bounded instruction set over a keyed state, with per-caller nonces,
 gas, cached receipts and rollback.
 */
module Execution {
  import opened Results
  import opened Model
  import opened Certificates
  import opened Protocol

  type Table = map<string, Value>

  const MAX_KEY_BYTES := 256
  const MAX_VALUE_BYTES := 16 * 1024

  datatype Failure =
    | UnsupportedOperation | InvalidKey | ValueTooLarge | NotAnInteger | DeleteWithValue
    | InvalidTransaction | TooManyInstructions | InvalidNonce | GasExceeded | TargetNotInteger
    | NotForCapsule | EmptyBatch | BatchReverted

  datatype Transaction = Transaction(txId: Digest, statement: TransactionStatement, signature: Signature) {
    predicate Verify() {
      && statement.nonce >= 0 && statement.gasLimit > 0 && statement.instructions != []
      && txId == TransactionDigest(statement)
      && signature == ByCaller(statement.callerPublicKey, statement)
    }
  }

  datatype Receipt = Receipt(
    txId: Digest, preRoot: Digest, postRoot: Digest, gasUsed: int, eventRoot: Digest, diff: Digest,
    success: bool, error: Option<Failure>)

  // ----- Instructions

  function GasCost(operation: string): Option<int> {
    if operation == "SET" then Some(10)
    else if operation == "DELETE" then Some(8)
    else if operation == "ADD_INT" then Some(12)
    else None
  }

  /** len(s.encode("utf-8")) */
  function Utf8Length(s: string): nat {
    if s == "" then 0
    else
      var c := s[0] as int;
      (if c < 0x80 then 1 else if c < 0x800 then 2 else if c < 0x1_0000 then 3 else 4) + Utf8Length(s[1..])
  }

  function DecimalDigits(n: nat): nat { if n < 10 then 1 else 1 + DecimalDigits(n / 10) }

  /** The length of the value's canonical JSON. */
  function CanonicalLength(v: Value): nat {
    match v
    case Null => 4
    case Bool(flag) => if flag then 4 else 5
    case Int(n) => if n >= 0 then DecimalDigits(n) else 1 + DecimalDigits(-n)
    case Json(text) => Utf8Length(text)
  }

  /** A value that passes isinstance(value, int): Python's booleans do. */
  function AsInteger(v: Value): Option<int> {
    match v
    case Int(n) => Some(n)
    case Bool(flag) => Some(if flag then 1 else 0)
    case _ => None
  }

  function Validate(i: Instruction): Option<Failure> {
    if GasCost(i.operation).None? then Some(UnsupportedOperation)
    else if i.key == "" || Utf8Length(i.key) > MAX_KEY_BYTES then Some(InvalidKey)
    else if CanonicalLength(i.value) > MAX_VALUE_BYTES then Some(ValueTooLarge)
    else if i.operation == "ADD_INT" && AsInteger(i.value).None? then Some(NotAnInteger)
    else if i.operation == "DELETE" && i.value != Null then Some(DeleteWithValue)
    else None
  }

  function Lookup(state: Table, key: string): Value { if key in state then state[key] else Null }

  /** The state after one validated instruction. */
  function Effect(state: Table, i: Instruction): Result<Table, Failure> {
    if i.operation == "SET" then Ok(state[i.key := i.value])
    else if i.operation == "DELETE" then Ok(state - {i.key})
    else
      var current := if i.key in state then AsInteger(state[i.key]) else Some(0);
      var added := AsInteger(i.value);
      if current.None? || added.None? then Err(TargetNotInteger) else Ok(state[i.key := Int(current.value + added.value)])
  }

  datatype Staged = Staged(state: Table, events: seq<ExecutionEvent>, gasUsed: int)

  /** One round of the staging loop. */
  function StageOne(s: Staged, i: Instruction, gasLimit: int): Result<Staged, Failure> {
    var invalid := Validate(i);
    if invalid.Some? then Err(invalid.value)
    else
      var gas := s.gasUsed + GasCost(i.operation).value;
      if gas > gasLimit then Err(GasExceeded)
      else
        match Effect(s.state, i)
        case Err(e) => Err(e)
        case Ok(state) =>
          var event := ExecutionEvent(i.operation, i.key, Lookup(s.state, i.key), Lookup(state, i.key));
          Ok(Staged(state, s.events + [event], gas))
  }

  function Stage(s: Staged, instructions: seq<Instruction>, gasLimit: int): Result<Staged, Failure>
    decreases |instructions|
  {
    if instructions == [] then Ok(s)
    else
      match StageOne(s, instructions[0], gasLimit)
      case Err(e) => Err(e)
      case Ok(next) => Stage(next, instructions[1..], gasLimit)
  }

  function StageAll(state: Table, t: TransactionStatement): Result<Staged, Failure> {
    Stage(Staged(state, [], 0), t.instructions, t.gasLimit)
  }

  // ----- The executor

  datatype Executor = Executor(
    maxInstructions: int, state: Table, nonces: map<string, int>, receipts: map<Digest, Receipt>)
  {
    function Root(): Digest { StateRoot(state) }

    function NonceOf(caller: string): int { if caller in nonces then nonces[caller] else 0 }

    /** What a transaction that is not cached yet comes to. */
    function Attempt(t: Transaction): Result<Staged, Failure> {
      if !t.Verify() then Err(InvalidTransaction)
      else if |t.statement.instructions| > maxInstructions then Err(TooManyInstructions)
      else if t.statement.nonce != NonceOf(t.statement.caller) then Err(InvalidNonce)
      else StageAll(state, t.statement)
    }

    function ReceiptFor(t: Transaction): Receipt {
      match Attempt(t)
      case Ok(s) => Receipt(t.txId, Root(), StateRoot(s.state), s.gasUsed, EventsDigest(s.events), DiffDigest(state, s.state),
                            true, None)
      case Err(e) => Receipt(t.txId, Root(), Root(), 0, EventsDigest([]), DiffDigest(state, state), false, Some(e))
    }

    function Execute(t: Transaction): (Executor, Receipt) {
      if t.txId in receipts then (this, receipts[t.txId])
      else
        var receipt := ReceiptFor(t);
        var noted := this.(receipts := receipts[t.txId := receipt]);
        match Attempt(t)
        case Ok(s) =>
          (noted.(state := s.state, nonces := nonces[t.statement.caller := NonceOf(t.statement.caller) + 1]), receipt)
        case Err(_) => (noted, receipt)
    }

    function ExecuteEach(ts: seq<Transaction>): (Executor, seq<Receipt>) {
      if ts == [] then (this, [])
      else
        var (before, rs) := ExecuteEach(ts[..|ts| - 1]);
        var (after, r) := before.Execute(ts[|ts| - 1]);
        (after, rs + [r])
    }

    predicate AllSucceeded(rs: seq<Receipt>) { forall i :: 0 <= i < |rs| ==> rs[i].success }

    function ExecuteBatch(ts: seq<Transaction>): (Executor, Result<seq<Receipt>, Failure>) {
      if ts == [] then (this, Err(EmptyBatch))
      else
        var (after, rs) := ExecuteEach(ts);
        if AllSucceeded(rs) then (after, Ok(rs)) else (this, Err(BatchReverted))
    }

    /** The checks execute_for_capsule makes before it runs anything. */
    ghost predicate FitsCapsule(t: Transaction, c: Capsule, proof: Proof, p: ProtocolState) {
      && c.Id() == proof.capsuleId && p.VerifyClosure(c, proof)
      && c.body.predecessorId in p.knownSeals && p.knownSeals[c.body.predecessorId].stateRoot == Root()
      && c.body.ruleWitness == t.txId
      && c.body.successorRoot != p.knownSeals[c.body.predecessorId].stateRoot
    }

    ghost function ExecuteForCapsule(t: Transaction, c: Capsule, proof: Proof, p: ProtocolState)
      : (Executor, Result<Receipt, Failure>)
    {
      if !FitsCapsule(t, c, proof, p) then (this, Err(NotForCapsule))
      else
        var (after, r) := Execute(t);
        if !r.success || r.preRoot != p.knownSeals[c.body.predecessorId].stateRoot || r.postRoot != c.body.successorRoot
        then (this, Err(NotForCapsule))
        else (after, Ok(r))
    }
  }

  // ----- Binding to a closure (mosaic/protocol.py)

  datatype BindingError = ExecutionRefused(failure: Failure) | ProtocolRefused(error: Error)

  datatype Bound = Bound(executor: Executor, protocol: ProtocolState, result: Result<(StateSeal, Receipt), BindingError>)

  ghost function ApplyExecution(e: Executor, p: ProtocolState, t: Transaction, c: Capsule, proof: Proof): Bound {
    var (ran, r) := e.ExecuteForCapsule(t, c, proof, p);
    if r.Err? then Bound(e, p, Err(ExecutionRefused(r.error)))
    else
      var o := p.Apply(c, proof);
      if o.result.Err? then Bound(e, o.state, Err(ProtocolRefused(o.result.error)))
      else if o.result.value.stateRoot != r.value.postRoot then Bound(e, o.state, Err(ProtocolRefused(ClosureInvalid)))
      else Bound(ran, o.state, Ok((o.result.value, r.value)))
  }
}
