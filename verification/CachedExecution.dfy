/**
 A cached transaction bound to a closure: the executor ran it, undid it with another one, and stands at the capsule's
 predecessor again. Binding then succeeds and leaves it at another root than the new seal.
 */
module CachedExecution {
  import opened Results
  import opened Model
  import opened Protocol
  import opened OneMember
  import opened Execution
  import opened Binding

  // ----- The executor

  function Signed(statement: TransactionStatement): Transaction {
    Transaction(TransactionDigest(statement), statement, ByCaller("key", statement))
  }

  function SetX(): Transaction { Signed(TransactionStatement("caller", "key", 0, 100, [Instruction("SET", "x", Int(1))])) }

  function DropX(): Transaction { Signed(TransactionStatement("caller", "key", 1, 100, [Instruction("DELETE", "x", Null)])) }

  const START := Executor(10, map[], map[], map[])
  const X: Table := map["x" := Int(1)]

  lemma SettingX()
    ensures var (e, r) := START.Execute(SetX());
            && e.state == X && e.nonces == map["caller" := 1] && e.receipts == map[SetX().txId := r]
            && r.success && r.preRoot == StateRoot(map[]) && r.postRoot == StateRoot(X) && e.maxInstructions == 10
  {
    var i := Instruction("SET", "x", Int(1));
    assert Validate(i) == None;
    assert StageOne(Staged(map[], [], 0), i, 100).Ok?;
    assert [i][1..] == [];
  }

  lemma DroppingX(e: Executor)
    requires e.state == X && e.nonces == map["caller" := 1] && DropX().txId !in e.receipts && e.maxInstructions == 10
    ensures var (after, r) := e.Execute(DropX());
            after.state == map[] && after.receipts == e.receipts[DropX().txId := r]
  {
    var i := Instruction("DELETE", "x", Null);
    assert Validate(i) == None;
    assert X - {"x"} == map[];
    assert StageOne(Staged(X, [], 0), i, 100).Ok?;
    assert [i][1..] == [];
  }

  /** The executor after both transactions. */
  function Undone(): Executor { START.Execute(SetX()).0.Execute(DropX()).0 }

  lemma UndoneStands()
    ensures var e := Undone();
            && e.Root() == StateRoot(map[]) && SetX().txId in e.receipts
            && var r := e.receipts[SetX().txId];
            r.success && r.preRoot == StateRoot(map[]) && r.postRoot == StateRoot(X)
  {
    SettingX();
    assert SetX().txId != DropX().txId;
    hide Executor.Execute;
    DroppingX(START.Execute(SetX()).0);
  }

  // ----- The protocol

  function SettingCapsule(): Capsule { CapsuleTo(StateRoot(X), SetX().txId) }

  lemma CapsuleApplies(p: ProtocolState, c: Capsule, proof: Proof)
    requires c == SettingCapsule() && proof.capsuleId == c.Id() && p.VerifyClosure(c, proof) && c.Id() in p.closures
    requires p.currentSeals == map["resource" := GENESIS] && p.knownSeals == map[GENESIS.Id() := GENESIS]
    ensures var o := p.Apply(c, proof); o.result.Ok? && o.result.value.stateRoot == StateRoot(X)
  {
    hide ProtocolState.VerifyClosure;
  }

  lemma ExecutionFits(e: Executor, p: ProtocolState, t: Transaction, c: Capsule, proof: Proof)
    requires e.FitsCapsule(t, c, proof, p) && t.txId in e.receipts
    requires var r := e.receipts[t.txId];
             && r.success && r.preRoot == p.knownSeals[c.body.predecessorId].stateRoot && r.postRoot == c.body.successorRoot
    ensures e.ExecuteForCapsule(t, c, proof, p) == (e, Ok(e.receipts[t.txId]))
  {
    hide Executor.FitsCapsule;
  }

  lemma UndoneFits(p: ProtocolState, proof: Proof)
    requires p.VerifyClosure(SettingCapsule(), proof) && proof.capsuleId == SettingCapsule().Id()
    requires p.knownSeals == map[GENESIS.Id() := GENESIS]
    ensures Undone().FitsCapsule(SetX(), SettingCapsule(), proof, p)
  {
    UndoneStands();
    hide ProtocolState.VerifyClosure, Undone, Executor.Execute;
    assert StateRoot(map[]) != StateRoot(X) by { assert "x" in X; }
  }

  /** Binding returns, and executor and seal stand at different roots. */
  lemma CachedRootsDiffer()
    ensures var closed := Node().Close(SettingCapsule(), []);
            && closed.result.Ok?
            && var o := ApplyExecution(Undone(), closed.state, SetX(), SettingCapsule(), closed.result.value);
            && o.result.Ok? && o.result.value.0.stateRoot == StateRoot(X) && o.executor.Root() == StateRoot(map[])
            && o.executor.Root() != o.result.value.0.stateRoot
  {
    var c, closed := SettingCapsule(), Node().Close(SettingCapsule(), []);
    NodeCloses(StateRoot(X), SetX().txId);
    UndoneStands();
    UndoneFits(closed.state, closed.result.value);
    assert closed.state.knownSeals[c.body.predecessorId].stateRoot == StateRoot(map[]);
    assert "x" in X;
    hide ProtocolState.Close, ProtocolState.Apply, ProtocolState.VerifyClosure, Undone, Node, Executor.Execute,
         Executor.FitsCapsule, Executor.ExecuteForCapsule, Executor.Root;
    ExecutionFits(Undone(), closed.state, SetX(), c, closed.result.value);
    CapsuleApplies(closed.state, c, closed.result.value);
  }
}
