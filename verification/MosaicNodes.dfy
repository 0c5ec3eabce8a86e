/**
 The node object (mosaic/network.py): its handlers change the node's tables and its protocol object in place, and
 leave exactly the state the steps in module Nodes give.
 */
module MosaicNodes {
  import opened Results
  import opened Model
  import opened Certificates
  import opened Protocol
  import opened MosaicProtocols
  import opened Nodes

  class MosaicNode {
    const nodeId: string
    const protocol: MosaicProtocol
    var receiptPool: map<Digest, seq<WitnessReceipt>>
    var receiptHistory: map<(Digest, string), set<Digest>>
    var seenCapsules: set<Digest>
    var pendingCapsules: seq<Capsule>
    ghost var applied: set<Digest>

    ghost function State(): Node
      reads this, protocol
    {
      Node(protocol.State(), receiptPool, receiptHistory, seenCapsules, pendingCapsules, applied)
    }

    constructor (nodeId: string, protocol: MosaicProtocol)
      ensures this.nodeId == nodeId && this.protocol == protocol
      ensures State() == Node(protocol.State(), map[], map[], {}, [], {})
    {
      this.nodeId, this.protocol := nodeId, protocol;
      receiptPool, receiptHistory, seenCapsules, pendingCapsules, applied := map[], map[], {}, [], {};
    }

    method Submit(c: Capsule)
      modifies protocol
      ensures Reaction(State(), {}) == OnSubmit(old(State()), c)
    {
      if c.Id() in protocol.closures { return; }
      protocol.capsules := protocol.capsules[c.Id() := c];
    }

    method OnCapsule(c: Capsule) returns (broadcast: set<WitnessReceipt>, raised: bool)
      modifies this, protocol
      ensures Reaction(State(), broadcast) == Nodes.OnCapsule(old(State()), nodeId, c)
      ensures raised == CapsuleRaises(old(State()), nodeId, c)
    {
      hide ProtocolState.Witness;
      if c.Id() in seenCapsules {
        if c.Id() in protocol.closures { return {}, false; }
        var again := protocol.WitnessReceipt(nodeId, c, Accept);
        return if again.Ok? then {again.value} else {}, Uncaught(again);
      }
      seenCapsules := seenCapsules + {c.Id()};
      protocol.capsules := protocol.capsules[c.Id() := c];
      var receipt := protocol.WitnessReceipt(nodeId, c, Accept);
      if receipt == Err(CapsuleInvalid) { pendingCapsules := PutPending(pendingCapsules, c); }
      return if receipt.Ok? then {receipt.value} else {}, Uncaught(receipt);
    }

    method OnReceipt(r: WitnessReceipt)
      modifies this, protocol
      ensures Reaction(State(), {}) == Nodes.OnReceipt(old(State()), r)
    {
      hide Nodes.TryClose, ProtocolState.VerifyReceipt;
      var key, id := (r.statement.capsuleId, r.Witness()), r.statement.capsuleId;
      var heard := if key in receiptHistory then receiptHistory[key] else {};
      if r.Id() in heard { return; }
      receiptHistory := receiptHistory[key := heard + {r.Id()}];
      receiptPool := receiptPool[id := Put(if id in receiptPool then receiptPool[id] else [], r)];
      if id !in protocol.capsules || !protocol.State().VerifyReceipt(r) { return; }
      TryClose(protocol.capsules[id]);
    }

    method TryClose(c: Capsule)
      modifies this`applied, protocol
      ensures State() == Nodes.TryClose(old(State()), c)
    {
      hide Nodes.RegisterAndApply, CreateProof, Verified, ReceiptWeight, ProtocolState.RequiredWeight;
      if c.Id() in protocol.closures { return; }
      var valid := Verified(protocol.State(), if c.Id() in receiptPool then receiptPool[c.Id()] else []);
      var threshold := protocol.RequiredWeight();
      if ReceiptWeight(protocol.members, valid) < threshold { return; }
      var made := CreateProof(Accept, valid);
      if made.Ok? { var _ := RegisterAndApply(c, made.value); }
    }

    method RegisterAndApply(c: Capsule, proof: Proof) returns (ok: bool)
      modifies this`applied, protocol
      ensures ok == Taken(old(protocol.State()), c, proof)
      ensures State() == Nodes.RegisterAndApply(old(State()), c, proof)
    {
      hide ProtocolState.Register, ProtocolState.Apply;
      var registered := protocol.RegisterClosure(c, proof);
      if registered.Err? { return false; }
      var seal := protocol.Apply(c, proof);
      if seal.Ok? { applied := applied + {c.Id()}; }
      return seal.Ok?;
    }

    /** The retries start only when the closure was registered and applied. */
    method OnClosure(c: Capsule, proof: Proof) returns (broadcast: set<WitnessReceipt>)
      modifies this, protocol
      ensures var n := Nodes.OnClosure(old(State()), c, proof).node;
              Reaction(State(), broadcast) ==
              if Taken(old(protocol.State()).StoreCapsule(c), c, proof) then RetryAll(n, nodeId, n.pendingCapsules)
              else Reaction(n, {})
    {
      hide Nodes.RegisterAndApply, RetryAll, Taken;
      protocol.capsules := protocol.capsules[c.Id() := c];
      var closed := RegisterAndApply(c, proof);
      broadcast := {};
      if closed { broadcast := RetryPending(); }
    }

    /** One round of the retry loop. */
    method RetryOne(c: Capsule) returns (broadcast: set<WitnessReceipt>, raised: bool)
      modifies this, protocol
      ensures Reaction(State(), broadcast) == Nodes.RetryOne(old(State()), nodeId, c)
      ensures raised == RetryRaises(old(State()), nodeId, c)
    {
      hide Nodes.OnCapsule, CapsuleRaises;
      if c.body.predecessorId !in protocol.knownSeals { return {}, false; }
      var resource := protocol.knownSeals[c.body.predecessorId].resourceId;
      if resource !in protocol.currentSeals || protocol.currentSeals[resource].Id() != c.body.predecessorId {
        return {}, false;
      }
      pendingCapsules := WithoutPending(pendingCapsules, c.Id());
      seenCapsules := seenCapsules - {c.Id()};
      broadcast, raised := OnCapsule(c);
    }

    /** An error that a capsule's handler does not catch leaves the loop. */
    method RetryPending() returns (broadcast: set<WitnessReceipt>)
      modifies this, protocol
      ensures Reaction(State(), broadcast) == RetryAll(old(State()), nodeId, old(pendingCapsules))
    {
      hide Nodes.RetryOne, RetryRaises;
      var snapshot := pendingCapsules;
      broadcast := {};
      ghost var all := RetryAll(State(), nodeId, snapshot);
      assert snapshot[0..] == snapshot;
      for i := 0 to |snapshot|
        invariant FollowsOn(all, RetryAll(State(), nodeId, snapshot[i..]), broadcast)
      {
        assert snapshot[i..][0] == snapshot[i] && snapshot[i..][1..] == snapshot[i + 1..];
        var sent, raised := RetryOne(snapshot[i]);
        broadcast := broadcast + sent;
        if raised { return; }
      }
    }
  }

  /** The whole reaction is what was broadcast so far followed by the rest. */
  ghost predicate FollowsOn(all: Reaction, rest: Reaction, broadcast: set<WitnessReceipt>) {
    all.node == rest.node && all.signed == broadcast + rest.signed
  }
}
