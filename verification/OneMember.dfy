/**
 A committee of one member on one node, with one resource: where the concrete protocol runs start.
 */
module OneMember {
  import opened Results
  import opened Model
  import opened Quorums
  import opened Certificates
  import opened Protocol
  import opened SealChain
  import opened ProtocolRuns
  import opened Outcomes
  import opened Collecting

  const MEMBERS: Members := map["member" := Member("key", true, 1)]
  const GENESIS := StateSeal("resource", 0, 0, StateRoot(map[]), HashOf(Text("secret")), "owner")
  const CREATION := Operation.CreateResource("resource", "owner", StateRoot(map[]), Text("secret"))

  /** The node with its resource, whose state is empty. */
  function Node(): ProtocolState { Start(MEMBERS, 0).Install(GENESIS) }

  lemma NodeReached()
    ensures Run(Start(MEMBERS, 0), [CREATION]) == Node()
    ensures Filed(Node()) && CurrentIsLast(Node().currentSeals, Node().knownSeals)
  {
    assert [CREATION][..0] == [];
  }

  /** A capsule that takes the resource from its first seal to the given state. */
  function CapsuleTo(root: Digest, ruleWitness: Digest): Capsule {
    var body := CapsuleBody(GENESIS.Id(), root, "rule", ruleWitness, None, 0, 0, "client", "key");
    Capsule(body, ByClient("key", body))
  }

  lemma MemberWeight()
    ensures Total(Weights(MEMBERS)) == 1
  {
    assert Weights(MEMBERS).Keys == {"member"};
    WeightRemove(Weights(MEMBERS), {"member"}, "member");
  }

  lemma NodeMayClose(root: Digest, ruleWitness: Digest)
    requires root != Text("")
    ensures Node().ValidCapsule(CapsuleTo(root, ruleWitness)) && ClosesAlone(Node(), CapsuleTo(root, ruleWitness))
  {
    var p, c := Node(), CapsuleTo(root, ruleWitness);
    assert p.currentSeals == map["resource" := GENESIS] && p.knownSeals == map[GENESIS.Id() := GENESIS];
    MemberWeight();
  }

  /** The node closes the capsule with its own key, which leaves the seals alone. */
  lemma NodeCloses(root: Digest, ruleWitness: Digest)
    requires root != Text("")
    ensures var o, c := Node().Close(CapsuleTo(root, ruleWitness), []), CapsuleTo(root, ruleWitness);
            && o.result.Ok? && o.state.VerifyClosure(c, o.result.value) && c.Id() in o.state.closures
            && o.result.value.capsuleId == c.Id()
            && o.state.currentSeals == map["resource" := GENESIS] && o.state.knownSeals == map[GENESIS.Id() := GENESIS]
  {
    var p, c := Node(), CapsuleTo(root, ruleWitness);
    NodeReached();
    NodeMayClose(root, ruleWitness);
    assert p.currentSeals == map["resource" := GENESIS] && p.knownSeals == map[GENESIS.Id() := GENESIS];
    hide *;
    CloseAlone(p, c);
    SealsAfterClose(p, c);
    VerifiedMatches(p.Close(c, []).state, c, p.Close(c, []).result.value);
  }

  lemma SealsAfterClose(p: ProtocolState, c: Capsule)
    requires Filed(p) && CurrentIsLast(p.currentSeals, p.knownSeals)
    ensures var q := p.Close(c, []).state; q.currentSeals == p.currentSeals && q.knownSeals == p.knownSeals
  {
    hide Filed, CurrentIsLast, ProtocolState.Gather, ProtocolState.CloseWith, ProtocolState.ValidCapsule;
    var gathered := p.Gather(c, [], Accept);
    GatherKeeps(p, c, [], Accept);
    if gathered.result.Ok? { CloseWithKeeps(gathered.state, c, gathered.result.value); }
  }
}
