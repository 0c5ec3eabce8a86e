/**
 The executor object (mosaic/execution.py), which stages on a copy and swaps it in, and the protocol method that binds
 its runs to closures.
 */
module DeterministicExecutors {
  import opened Results
  import opened Model
  import opened Certificates
  import opened Protocol
  import opened MosaicProtocols
  import opened Execution

  class DeterministicExecutor {
    const maxInstructions: int
    var state: Table
    var nonces: map<string, int>
    var receipts: map<Digest, Receipt>

    function State(): Executor
      reads this
    {
      Executor(maxInstructions, state, nonces, receipts)
    }

    constructor (initial: Table, maxInstructions: int)
      ensures State() == Executor(maxInstructions, initial, map[], map[])
    {
      this.maxInstructions := maxInstructions;
      state, nonces, receipts := initial, map[], map[];
    }

    /** Runs the instructions on a copy of the state. */
    method StageInstructions(t: TransactionStatement) returns (r: Result<Staged, Failure>)
      ensures r == StageAll(state, t)
    {
      var staged, events, gasUsed := state, [], 0;
      assert t.instructions[0..] == t.instructions;
      for i := 0 to |t.instructions|
        invariant StageAll(state, t) == Stage(Staged(staged, events, gasUsed), t.instructions[i..], t.gasLimit)
      {
        var instruction := t.instructions[i];
        assert t.instructions[i..][0] == instruction && t.instructions[i..][1..] == t.instructions[i + 1..];
        var invalid := Validate(instruction);
        if invalid.Some? { return Err(invalid.value); }
        var gas := gasUsed + GasCost(instruction.operation).value;
        if gas > t.gasLimit { return Err(GasExceeded); }
        var before := Lookup(staged, instruction.key);
        var effect := Effect(staged, instruction);
        if effect.Err? { return Err(effect.error); }
        staged, gasUsed := effect.value, gas;
        events := events + [ExecutionEvent(instruction.operation, instruction.key, before, Lookup(staged, instruction.key))];
      }
      return Ok(Staged(staged, events, gasUsed));
    }

    method Attempt(t: Transaction) returns (r: Result<Staged, Failure>)
      ensures r == State().Attempt(t)
    {
      if !t.Verify() { return Err(InvalidTransaction); }
      if |t.statement.instructions| > maxInstructions { return Err(TooManyInstructions); }
      if t.statement.nonce != State().NonceOf(t.statement.caller) { return Err(InvalidNonce); }
      r := StageInstructions(t.statement);
    }

    method Execute(t: Transaction) returns (r: Receipt)
      modifies this
      ensures (State(), r) == old(State()).Execute(t)
    {
      hide Executor.Attempt;
      if t.txId in receipts { return receipts[t.txId]; }
      var root := StateRoot(state);
      var attempt := Attempt(t);
      match attempt
      case Ok(s) =>
        r := Receipt(t.txId, root, StateRoot(s.state), s.gasUsed, EventsDigest(s.events), DiffDigest(state, s.state), true, None);
        state := s.state;
        nonces := nonces[t.statement.caller := (if t.statement.caller in nonces then nonces[t.statement.caller] else 0) + 1];
        receipts := receipts[t.txId := r];
      case Err(e) =>
        r := Receipt(t.txId, root, root, 0, EventsDigest([]), DiffDigest(state, state), false, Some(e));
        receipts := receipts[t.txId := r];
    }

    method ExecuteBatch(ts: seq<Transaction>) returns (r: Result<seq<Receipt>, Failure>)
      modifies this
      ensures (State(), r) == old(State()).ExecuteBatch(ts)
    {
      hide Executor.Execute;
      if ts == [] { return Err(EmptyBatch); }
      var snapshotState, snapshotNonces, snapshotReceipts := state, nonces, receipts;
      var rs := [];
      for i := 0 to |ts|
        invariant (State(), rs) == old(State()).ExecuteEach(ts[..i])
      {
        assert ts[..i + 1][..i] == ts[..i];
        var receipt := Execute(ts[i]);
        rs := rs + [receipt];
      }
      assert ts[..|ts|] == ts;
      if exists i :: 0 <= i < |rs| && !rs[i].success {
        state, nonces, receipts := snapshotState, snapshotNonces, snapshotReceipts;
        return Err(BatchReverted);
      }
      return Ok(rs);
    }

    method ExecuteForCapsule(t: Transaction, c: Capsule, proof: Proof, protocol: MosaicProtocol)
      returns (r: Result<Receipt, Failure>)
      modifies this
      ensures (State(), r) == old(State()).ExecuteForCapsule(t, c, proof, old(protocol.State()))
    {
      hide Executor.Execute, ProtocolState.VerifyClosure;
      if c.Id() != proof.capsuleId { return Err(NotForCapsule); }
      var verified := protocol.VerifyClosure(c, proof);
      if !verified { return Err(NotForCapsule); }
      if c.body.predecessorId !in protocol.knownSeals { return Err(NotForCapsule); }
      var predecessor := protocol.knownSeals[c.body.predecessorId];
      if predecessor.stateRoot != StateRoot(state) { return Err(NotForCapsule); }
      if c.body.ruleWitness != t.txId { return Err(NotForCapsule); }
      if c.body.successorRoot == predecessor.stateRoot { return Err(NotForCapsule); }
      var snapshotState, snapshotNonces, snapshotReceipts := state, nonces, receipts;
      var receipt := Execute(t);
      if !receipt.success || receipt.preRoot != predecessor.stateRoot || receipt.postRoot != c.body.successorRoot {
        state, nonces, receipts := snapshotState, snapshotNonces, snapshotReceipts;
        return Err(NotForCapsule);
      }
      return Ok(receipt);
    }
  }

  /** MosaicProtocol.apply_execution */
  method ApplyExecution(protocol: MosaicProtocol, executor: DeterministicExecutor, t: Transaction, c: Capsule, proof: Proof)
    returns (r: Result<(StateSeal, Receipt), BindingError>)
    modifies protocol, executor
    ensures Bound(executor.State(), protocol.State(), r) ==
            Execution.ApplyExecution(old(executor.State()), old(protocol.State()), t, c, proof)
  {
    hide ProtocolState.Apply, Executor.ExecuteForCapsule;
    var state, nonces, receipts := executor.state, executor.nonces, executor.receipts;
    var ran := executor.ExecuteForCapsule(t, c, proof, protocol);
    if ran.Err? {
      executor.state, executor.nonces, executor.receipts := state, nonces, receipts;
      return Err(ExecutionRefused(ran.error));
    }
    var applied := protocol.Apply(c, proof);
    if applied.Err? {
      executor.state, executor.nonces, executor.receipts := state, nonces, receipts;
      return Err(ProtocolRefused(applied.error));
    }
    if applied.value.stateRoot != ran.value.postRoot {
      executor.state, executor.nonces, executor.receipts := state, nonces, receipts;
      return Err(ProtocolRefused(ClosureInvalid));
    }
    return Ok((applied.value, ran.value));
  }
}
