/**
 How a node answers capsules: a proper one on a current seal it may claim is signed and stored, one that is not valid yet
 is parked and signed once its predecessor is current.
 */
module Answering {
  import opened Results
  import opened Model
  import opened Certificates
  import opened Protocol
  import opened SealChain
  import opened ProtocolRuns
  import opened Nodes
  import opened Progress
  import opened Claims

  /** The node may sign the capsule: it is proper, on a current seal, and no other claim is in the way. */
  ghost predicate MaySign(p: ProtocolState, nodeId: string, c: Capsule) {
    && nodeId in p.members && p.members[nodeId].loaded && Proper(p, c) && OnCurrent(p, c)
    && (IsFree(p, c.body.predecessorId) || IsOwn(p, c) || IsGivenUp(p, c))
  }

  function OwnReceipt(p: ProtocolState, nodeId: string, c: Capsule): WitnessReceipt
    requires nodeId in p.members
  {
    SignedReceipt(p.members[nodeId].publicKey, nodeId, c.body, Accept)
  }

  lemma StoringKeepsSigning(p: ProtocolState, nodeId: string, c: Capsule)
    requires MaySign(p, nodeId, c)
    ensures MaySign(p.StoreCapsule(c), nodeId, c)
  {}

  lemma SignsStored(p: ProtocolState, nodeId: string, c: Capsule)
    requires Filed(p) && MaySign(p, nodeId, c)
    ensures p.Witness(nodeId, c, Accept).result == Ok(OwnReceipt(p, nodeId, c))
  {
    AcceptExactly(p, nodeId, c);
    hide Filed, Proper, OnCurrent, ProtocolState.Witness, IsOwn, IsGivenUp, IsFree;
  }

  /** A capsule the node may sign is signed whenever it arrives, until it is closed, and is stored the first time. */
  lemma CapsuleIsSigned(n: Node, nodeId: string, c: Capsule)
    requires Filed(n.protocol) && MaySign(n.protocol, nodeId, c)
    ensures var o := OnCapsule(n, nodeId, c);
            && o.signed == (if c.Id() in n.seenCapsules && c.Id() in n.protocol.closures then {}
                            else {OwnReceipt(n.protocol, nodeId, c)})
            && c.Id() in o.node.seenCapsules && o.node.pendingCapsules == n.pendingCapsules
            && !CapsuleRaises(n, nodeId, c)
  {
    StoringKeepsSigning(n.protocol, nodeId, c);
    SignsStored(n.protocol, nodeId, c);
    StoreKeepsFiled(n.protocol, c);
    SignsStored(n.protocol.StoreCapsule(c), nodeId, c);
    hide Filed, MaySign, ProtocolState.Witness;
  }

  lemma SeenIsStored(n: Node, nodeId: string, c: Capsule)
    requires c.Id() !in n.seenCapsules
    ensures c.Id() in OnCapsule(n, nodeId, c).node.protocol.capsules
  {
    StoredStays(n.protocol.StoreCapsule(c), nodeId, c);
    hide ProtocolState.Witness, PutPending;
  }

  lemma StoredStays(p: ProtocolState, nodeId: string, c: Capsule)
    ensures p.capsules.Keys <= p.Witness(nodeId, c, Accept).state.capsules.Keys
  {
    hide MakeConflict, ProtocolState.ValidCapsule;
  }

  /** A capsule that is not proper is parked when it first arrives, and not signed. */
  lemma ImproperIsParked(n: Node, nodeId: string, c: Capsule)
    requires c.Id() !in n.seenCapsules && !Proper(n.protocol, c)
    ensures var o := OnCapsule(n, nodeId, c);
            o.signed == {} && c in o.node.pendingCapsules && c.Id() in o.node.seenCapsules
  {
    ProperIsValid(n.protocol.StoreCapsule(c), c);
    PutIsPending(n.pendingCapsules, c);
    hide PutPending, ProtocolState.ValidCapsule, ProtocolState.LockForAccept;
  }

  lemma {:induction false} PutIsPending(pending: seq<Capsule>, c: Capsule)
    ensures c in PutPending(pending, c)
    ensures forall d :: d in pending && d.Id() != c.Id() ==> d in PutPending(pending, c)
  {
    if pending != [] {
      assert pending == [pending[0]] + pending[1..];
      PutIsPending(pending[1..], c);
    }
  }

  lemma {:induction false} WithoutIsGone(pending: seq<Capsule>, id: Digest)
    ensures forall d :: d in WithoutPending(pending, id) <==> d in pending && d.Id() != id
  {
    if pending != [] {
      assert pending == [pending[0]] + pending[1..];
      WithoutIsGone(pending[1..], id);
    }
  }

  /**
   A retry leaves alone a parked capsule whose predecessor is not current; one that may be signed by then is signed,
   no longer parked, and every other one stays parked.
   */
  lemma RetrySigns(n: Node, nodeId: string, c: Capsule)
    requires Filed(n.protocol) && (forall d :: d in n.pendingCapsules && d.Id() == c.Id() ==> d == c)
    ensures !Ready(n, c) ==> RetryOne(n, nodeId, c) == Reaction(n, {})
    ensures MaySign(n.protocol, nodeId, c) ==>
              var o := RetryOne(n, nodeId, c);
              && o.signed == {OwnReceipt(n.protocol, nodeId, c)}
              && forall d :: d in o.node.pendingCapsules <==> d in n.pendingCapsules && d != c
  {
    hide Filed, OnCapsule, WithoutPending;
    if MaySign(n.protocol, nodeId, c) {
      WithoutIsGone(n.pendingCapsules, c.Id());
      assert Ready(n, c) by { CurrentIsReady(n, c); }
      hide MaySign, Ready;
      CapsuleIsSigned(Unparked(n, c), nodeId, c);
    }
  }

  lemma CurrentIsReady(n: Node, c: Capsule)
    requires OnCurrent(n.protocol, c)
    ensures Ready(n, c)
  {}

  /** A capsule submitted here is stored, unless it is closed already. */
  lemma SubmittedIsStored(n: Node, c: Capsule)
    requires c.Id() !in n.protocol.closures
    ensures var o := OnSubmit(n, c);
            && o.signed == {} && c.Id() in o.node.protocol.capsules && o.node.protocol.capsules[c.Id()] == c
            && o.node.protocol == n.protocol.(capsules := o.node.protocol.capsules)
  {}

  // ----- The retry loop

  /** The capsules are parked, on different predecessors, and may all be signed. */
  ghost predicate AllSignable(n: Node, nodeId: string, cs: seq<Capsule>) {
    && (forall i :: 0 <= i < |cs| ==> MaySign(n.protocol, nodeId, cs[i]))
    && (forall i, j :: 0 <= i < j < |cs| ==> cs[i].body.predecessorId != cs[j].body.predecessorId)
  }

  ghost predicate WellFiled(p: ProtocolState) { Filed(p) && CurrentIsLast(p.currentSeals, p.knownSeals) }

  /** Signing one capsule leaves what may be signed on other predecessors as it was. */
  lemma SigningLeavesOthers(p: ProtocolState, nodeId: string, c: Capsule, d: Capsule)
    requires WellFiled(p) && MaySign(p, nodeId, c) && MaySign(p, nodeId, d) && c.body.predecessorId != d.body.predecessorId
    ensures var q := p.Witness(nodeId, c, Accept).state;
            WellFiled(q) && MaySign(q, nodeId, d) && q.members == p.members
  {
    AcceptExactly(p, nodeId, c);
    WitnessKeeps(p, nodeId, c, Accept);
    hide Filed, CurrentIsLast, ProtocolState.Witness;
  }

  lemma SignedInOrder(p: ProtocolState, nodeId: string, c: Capsule)
    requires WellFiled(p)
    ensures WellFiled(p.Witness(nodeId, c, Accept).state) && WellFiled(p.StoreCapsule(c))
  {
    WitnessKeeps(p, nodeId, c, Accept);
    StoreKeepsFiled(p, c);
    hide Filed, CurrentIsLast, ProtocolState.Witness;
  }

  /** What a retry of the first capsule leaves. */
  lemma FirstRetry(n: Node, nodeId: string, cs: seq<Capsule>)
    requires WellFiled(n.protocol) && cs != [] && AllSignable(n, nodeId, cs)
    ensures var o := RetryOne(n, nodeId, cs[0]);
            && o.signed == {OwnReceipt(n.protocol, nodeId, cs[0])} && !RetryRaises(n, nodeId, cs[0])
            && WellFiled(o.node.protocol) && o.node.protocol.members == n.protocol.members
            && AllSignable(o.node, nodeId, cs[1..])
  {
    var c := cs[0];
    assert MaySign(n.protocol, nodeId, c);
    hide Filed, CurrentIsLast, WellFiled, MaySign, OnCapsule, CapsuleRaises;
    assert Filed(n.protocol) by { OrderMeans(n.protocol); }
    assert Ready(n, c) by { SignableIsReady(n, nodeId, c); }
    CapsuleIsSigned(Unparked(n, c), nodeId, c);
    UnparkedProtocol(n, nodeId, c);
    var p := n.protocol.StoreCapsule(c);
    SignedInOrder(n.protocol, nodeId, c);
    SignedInOrder(p, nodeId, c);
    SignedMembers(p, nodeId, c);
    StoringKeepsSigning(n.protocol, nodeId, c);
    forall i | 0 <= i < |cs| - 1 ensures MaySign(p.Witness(nodeId, c, Accept).state, nodeId, cs[1..][i]) {
      assert cs[1..][i] == cs[i + 1];
      StoringOther(n.protocol, nodeId, c, cs[i + 1]);
      SigningLeavesOthers(p, nodeId, c, cs[i + 1]);
    }
  }

  lemma OrderMeans(p: ProtocolState)
    requires WellFiled(p)
    ensures Filed(p)
  {}

  lemma SignableIsReady(n: Node, nodeId: string, c: Capsule)
    requires MaySign(n.protocol, nodeId, c)
    ensures Ready(n, c)
  {}

  lemma StoringOther(p: ProtocolState, nodeId: string, c: Capsule, d: Capsule)
    requires MaySign(p, nodeId, d)
    ensures MaySign(p.StoreCapsule(c), nodeId, d)
  {}

  lemma SignedMembers(p: ProtocolState, nodeId: string, c: Capsule)
    requires WellFiled(p)
    ensures p.Witness(nodeId, c, Accept).state.members == p.members
  {
    WitnessKeeps(p, nodeId, c, Accept);
    hide Filed, CurrentIsLast, ProtocolState.Witness;
  }

  /** An unparked capsule is not among those seen, so it is stored and witnessed. */
  lemma UnparkedProtocol(n: Node, nodeId: string, c: Capsule)
    ensures OnCapsule(Unparked(n, c), nodeId, c).node.protocol
         == n.protocol.StoreCapsule(c).Witness(nodeId, c, Accept).state
  {
    hide ProtocolState.Witness, PutPending, WithoutPending;
  }

  /** Once their predecessors are current, the retry loop signs every one of the parked capsules that it may. */
  lemma {:induction false} RetryAllSigns(n: Node, nodeId: string, cs: seq<Capsule>)
    requires WellFiled(n.protocol) && AllSignable(n, nodeId, cs)
    ensures cs != [] ==> nodeId in n.protocol.members
    ensures RetryAll(n, nodeId, cs).signed == set i | 0 <= i < |cs| :: OwnReceipt(n.protocol, nodeId, cs[i])
    decreases |cs|
  {
    if cs != [] {
      assert MaySign(n.protocol, nodeId, cs[0]);
      FirstRetry(n, nodeId, cs);
      hide WellFiled, RetryOne, RetryRaises, MaySign;
      var next := RetryOne(n, nodeId, cs[0]).node;
      RetryAllSigns(next, nodeId, cs[1..]);
      SetOfRest(n.protocol, next.protocol, nodeId, cs);
    }
  }

  lemma SetOfRest(p: ProtocolState, q: ProtocolState, nodeId: string, cs: seq<Capsule>)
    requires cs != [] && nodeId in p.members && q.members == p.members
    ensures (set i | 0 <= i < |cs| :: OwnReceipt(p, nodeId, cs[i])) ==
            {OwnReceipt(p, nodeId, cs[0])} + set i | 0 <= i < |cs[1..]| :: OwnReceipt(q, nodeId, cs[1..][i])
  {
    var all := set i | 0 <= i < |cs| :: OwnReceipt(p, nodeId, cs[i]);
    var rest := set i | 0 <= i < |cs[1..]| :: OwnReceipt(q, nodeId, cs[1..][i]);
    forall r ensures r in all <==> r in {OwnReceipt(p, nodeId, cs[0])} + rest {
      if r in all {
        var i :| 0 <= i < |cs| && r == OwnReceipt(p, nodeId, cs[i]);
        if i > 0 { assert cs[1..][i - 1] == cs[i]; }
      }
      if r in rest {
        var i :| 0 <= i < |cs[1..]| && r == OwnReceipt(q, nodeId, cs[1..][i]);
        assert cs[i + 1] == cs[1..][i];
      }
    }
  }

  /** Without its key the node raises at the first capsule it would sign, and those behind it are not retried. */
  lemma KeylessStops(n: Node, nodeId: string, c: Capsule, rest: seq<Capsule>)
    requires Filed(n.protocol) && nodeId in n.protocol.members && !n.protocol.members[nodeId].loaded
    requires Proper(n.protocol, c) && OnCurrent(n.protocol, c)
    requires IsFree(n.protocol, c.body.predecessorId) || IsOwn(n.protocol, c) || IsGivenUp(n.protocol, c)
    ensures RetryRaises(n, nodeId, c) && RetryAll(n, nodeId, [c] + rest) == RetryOne(n, nodeId, c)
    ensures RetryOne(n, nodeId, c).signed == {}
  {
    assert ([c] + rest)[0] == c;
    CurrentIsReady(n, c);
    KeylessRefused(n.protocol, nodeId, c);
    hide Filed, Proper, OnCurrent, IsFree, IsOwn, IsGivenUp, ProtocolState.Witness, Ready, PutPending, WithoutPending;
  }

  lemma KeylessRefused(p: ProtocolState, nodeId: string, c: Capsule)
    requires Filed(p) && nodeId in p.members && !p.members[nodeId].loaded && Proper(p, c) && OnCurrent(p, c)
    requires IsFree(p, c.body.predecessorId) || IsOwn(p, c) || IsGivenUp(p, c)
    ensures p.StoreCapsule(c).Witness(nodeId, c, Accept).result == Err(Refused)
  {
    var q := p.StoreCapsule(c);
    StoreKeepsFiled(p, c);
    assert Proper(q, c) && OnCurrent(q, c);
    assert IsFree(q, c.body.predecessorId) || IsOwn(q, c) || IsGivenUp(q, c);
    ProperIsValid(q, c);
    WitnessClaims(q, nodeId, c, Accept);
    AcceptLock(q, c);
    hide Filed, Proper, OnCurrent, ProtocolState.Witness, ProtocolState.LockForAccept, ProtocolState.ValidCapsule;
  }
}
