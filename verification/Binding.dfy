/**
 Binding an execution to a closure: apply_execution leaves executor and seals alone when it raises, and when it returns
 the executor stands at the new seal's root exactly if the transaction was not cached.
 */
module Binding {
  import opened Results
  import opened Model
  import opened Certificates
  import opened Protocol
  import opened SealChain
  import opened Execution

  lemma FailedApplyKeepsSeals(p: ProtocolState, c: Capsule, proof: Proof)
    ensures var o := p.Apply(c, proof);
            && (o.result.Err? ==> o.state.currentSeals == p.currentSeals && o.state.knownSeals == p.knownSeals)
            && (o.result.Ok? ==> p.VerifyClosure(c, proof))
  {
    hide ProtocolState.VerifyClosure, ProtocolState.Disputed, Successor;
  }

  /** The seal apply returns is the current one of its resource and carries the capsule's successor root. */
  lemma AppliedSeal(p: ProtocolState, c: Capsule, proof: Proof)
    requires CurrentKnown(p.currentSeals, p.knownSeals) && p.Apply(c, proof).result.Ok?
    ensures var o := p.Apply(c, proof); var seal := o.result.value;
            && seal.stateRoot == c.body.successorRoot
            && seal.resourceId in o.state.currentSeals && o.state.currentSeals[seal.resourceId] == seal
  {
    hide ProtocolState.VerifyClosure, ProtocolState.Disputed;
  }

  lemma ExecutionRoots(e: Executor, p: ProtocolState, t: Transaction, c: Capsule, proof: Proof)
    requires e.ExecuteForCapsule(t, c, proof, p).1.Ok?
    ensures var (ran, r) := e.ExecuteForCapsule(t, c, proof, p);
            && r.value.postRoot == c.body.successorRoot
            && (ran.Root() == c.body.successorRoot <==> t.txId !in e.receipts)
  {
    hide ProtocolState.VerifyClosure, Executor.Attempt;
  }

  lemma BindingAllOrNothing(e: Executor, p: ProtocolState, t: Transaction, c: Capsule, proof: Proof)
    requires CurrentKnown(p.currentSeals, p.knownSeals)
    ensures var o := ApplyExecution(e, p, t, c, proof);
            if o.result.Err? then
              o.executor == e && o.protocol.currentSeals == p.currentSeals && o.protocol.knownSeals == p.knownSeals
            else
              var seal := o.result.value.0;
              && seal.resourceId in o.protocol.currentSeals && o.protocol.currentSeals[seal.resourceId] == seal
              && (o.executor.Root() == seal.stateRoot <==> t.txId !in e.receipts)
  {
    hide Executor.ExecuteForCapsule, ProtocolState.Apply, ProtocolState.VerifyClosure, CurrentKnown, Executor.Root;
    FailedApplyKeepsSeals(p, c, proof);
    if e.ExecuteForCapsule(t, c, proof, p).1.Ok? {
      ExecutionRoots(e, p, t, c, proof);
      if p.Apply(c, proof).result.Ok? { AppliedSeal(p, c, proof); }
    }
  }
}
