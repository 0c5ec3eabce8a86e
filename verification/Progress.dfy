/**
 That nodes get on: once the witnesses whose verified ACCEPT receipts a node has pooled for a capsule weigh enough, the
 handler closes the capsule and puts its seal after the predecessor; before that it changes nothing.
 */
module Progress {
  import opened Results
  import opened Model
  import opened Quorums
  import opened Certificates
  import opened Protocol
  import opened SealChain
  import opened Closing
  import opened ProtocolRuns
  import opened Disputes
  import opened Nodes

  // ----- The receipt pools

  /** A pool holds one receipt for each witness, all about its own capsule. */
  ghost predicate PoolOf(rs: seq<WitnessReceipt>, id: Digest) {
    Distinct(rs) && forall i :: 0 <= i < |rs| ==> rs[i].statement.capsuleId == id
  }

  ghost predicate PoolsFiled(pools: map<Digest, seq<WitnessReceipt>>) { forall id :: id in pools ==> PoolOf(pools[id], id) }

  lemma PutInPool(rs: seq<WitnessReceipt>, r: WitnessReceipt, id: Digest)
    requires PoolOf(rs, id) && r.statement.capsuleId == id
    ensures PoolOf(Put(rs, r), id)
  {
    PutSpec(rs, r);
    hide Put, Distinct;
    var s := Put(rs, r);
    forall i | 0 <= i < |s| ensures s[i].statement.capsuleId == id { assert s[i] in s; }
  }

  lemma PoolIsFiled(n: Node, id: Digest)
    requires PoolsFiled(n.receiptPool)
    ensures PoolOf(Pool(n, id), id)
  {}

  lemma RegisterLeavesPools(n: Node, c: Capsule, proof: Proof)
    ensures RegisterAndApply(n, c, proof).receiptPool == n.receiptPool
  {
    hide ProtocolState.Register, ProtocolState.Apply;
  }

  lemma CapsuleLeavesPools(n: Node, nodeId: string, c: Capsule)
    ensures OnCapsule(n, nodeId, c).node.receiptPool == n.receiptPool
  {
    hide ProtocolState.Witness, PutPending;
  }

  lemma TryCloseLeavesPools(n: Node, c: Capsule)
    ensures TryClose(n, c).receiptPool == n.receiptPool
  {
    hide RegisterAndApply, Verified, CreateProof, ReceiptWeight, ProtocolState.RequiredWeight;
    var made := CreateProof(Accept, Verified(n.protocol, Pool(n, c.Id())));
    if made.Ok? { RegisterLeavesPools(n, c, made.value); }
  }

  /** Every step of a node keeps its pools filed. */
  lemma PoolsStayFiled(n: Node, nodeId: string, e: Event)
    requires PoolsFiled(n.receiptPool)
    ensures PoolsFiled(React(n, nodeId, e).node.receiptPool)
  {
    hide OnCapsule, TryClose, RegisterAndApply, PoolOf, Put, WithoutPending, ProtocolState.Witness,
         ProtocolState.VerifyReceipt;
    match e
    case Submit(c) =>
    case CapsuleArrives(c) => CapsuleLeavesPools(n, nodeId, c);
    case ReceiptArrives(r) => ReceiptFilesPool(n, r);
    case ClosureArrives(c, proof) => RegisterLeavesPools(n.(protocol := n.protocol.StoreCapsule(c)), c, proof);
    case Retry(c) => CapsuleLeavesPools(Unparked(n, c), nodeId, c);
    case AbandonLocally(c) =>
  }

  lemma ReceiptFilesPool(n: Node, r: WitnessReceipt)
    requires PoolsFiled(n.receiptPool)
    ensures PoolsFiled(OnReceipt(n, r).node.receiptPool)
  {
    hide TryClose, PoolOf, Put, ProtocolState.VerifyReceipt;
    var id := r.statement.capsuleId;
    PoolIsFiled(n, id);
    PutInPool(Pool(n, id), r, id);
    if id in n.protocol.capsules {
      forall m: Node ensures TryClose(m, n.protocol.capsules[id]).receiptPool == m.receiptPool {
        TryCloseLeavesPools(m, n.protocol.capsules[id]);
      }
    }
  }

  // ----- The witnesses that count

  /** The witnesses with a verified ACCEPT receipt in the list. */
  ghost function Voters(p: ProtocolState, rs: seq<WitnessReceipt>): set<string> {
    set i | 0 <= i < |rs| && rs[i].statement.status == Accept && p.VerifyReceipt(rs[i]) :: rs[i].Witness()
  }

  lemma {:induction false} VerifiedSpec(p: ProtocolState, rs: seq<WitnessReceipt>)
    requires Distinct(rs)
    ensures Distinct(Verified(p, rs)) && WitnessSet(Verified(p, rs)) == Voters(p, rs)
    ensures forall r :: r in Verified(p, rs) ==> r in rs && r.statement.status == Accept && p.VerifyReceipt(r)
  {
    hide ProtocolState.VerifyReceipt;
    if rs != [] {
      var n := |rs| - 1;
      var before := Verified(p, rs[..n]);
      DistinctPrefix(rs);
      VerifiedSpec(p, rs[..n]);
      VotersAppend(p, rs[..n], rs[n]);
      assert rs == rs[..n] + [rs[n]];
      assert Voters(p, rs[..n]) <= WitnessSet(rs[..n]);
      if rs[n].statement.status == Accept && p.VerifyReceipt(rs[n]) {
        DistinctAppend(before, rs[n]);
        assert Verified(p, rs) == before + [rs[n]];
      } else {
        assert Verified(p, rs) == before + [] == before;
      }
    }
  }

  lemma VotersAppend(p: ProtocolState, rs: seq<WitnessReceipt>, r: WitnessReceipt)
    ensures Voters(p, rs + [r]) ==
            Voters(p, rs) + if r.statement.status == Accept && p.VerifyReceipt(r) then {r.Witness()} else {}
  {
    hide ProtocolState.VerifyReceipt;
    var all := rs + [r];
    assert forall i :: 0 <= i < |rs| ==> all[i] == rs[i];
    assert all[|rs|] == r;
  }

  lemma VerifiedCount(p: ProtocolState, rs: seq<WitnessReceipt>, id: Digest)
    requires PoolOf(rs, id)
    ensures var valid := Verified(p, rs);
            && Distinct(valid) && AllCount(p, valid, Accept, id)
            && ReceiptWeight(p.members, valid) == Weight(Weights(p.members), Voters(p, rs))
  {
    VerifiedSpec(p, rs);
    ReceiptWeightIsWeight(p.members, Verified(p, rs));
    hide Verified, Distinct, Voters, ProtocolState.VerifyReceipt, ReceiptWeight, Weight;
    var valid := Verified(p, rs);
    forall i | 0 <= i < |valid| ensures p.Counts(valid[i], Accept, id) {
      assert valid[i] in rs;
    }
  }

  // ----- The seal a capsule puts

  /** The predecessor of the capsule is the current seal of its resource. */
  ghost predicate OnCurrent(p: ProtocolState, c: Capsule) {
    && c.body.predecessorId in p.knownSeals
    && p.knownSeals[c.body.predecessorId].Id() == c.body.predecessorId
    && p.knownSeals[c.body.predecessorId].resourceId in p.currentSeals
    && p.currentSeals[p.knownSeals[c.body.predecessorId].resourceId] == p.knownSeals[c.body.predecessorId]
  }

  /** No evidence on record names the capsule's predecessor. */
  ghost predicate Uncontested(p: ProtocolState, c: Capsule) {
    forall id :: id in p.conflictEvidence ==> p.conflictEvidence[id].predecessorId != c.body.predecessorId
  }

  /** The capsule's own seal is now current, one version on, with its root and its client as owner, and known. */
  ghost predicate PutSeal(p: ProtocolState, c: Capsule, q: ProtocolState)
    requires OnCurrent(p, c)
  {
    var s := p.knownSeals[c.body.predecessorId];
    && s.resourceId in q.currentSeals
    && var t := q.currentSeals[s.resourceId];
    && t.resourceId == s.resourceId && t.epoch == s.epoch && t.version == s.version + 1
    && t.stateRoot == c.body.successorRoot && t.owner == c.body.clientId && t.capabilityHash == HashOf(c.Id())
    && t.Id() in q.knownSeals && q.knownSeals[t.Id()] == t
    && (forall r :: r != s.resourceId ==> (r in q.currentSeals <==> r in p.currentSeals))
    && (forall r :: r != s.resourceId && r in p.currentSeals ==> q.currentSeals[r] == p.currentSeals[r])
  }

  lemma AdvancePutsSeal(p: ProtocolState, c: Capsule)
    requires OnCurrent(p, c)
    ensures p.Advance(c).result.Ok? && PutSeal(p, c, p.Advance(c).state)
    ensures var q := p.Advance(c).state; q == p.(currentSeals := q.currentSeals, knownSeals := q.knownSeals)
  {}

  /** A verified closure on the current seal that nothing contests is filed, applied, and its seal put. */
  lemma RegisterAndApplyPuts(n: Node, c: Capsule, proof: Proof)
    requires n.protocol.VerifyClosure(c, proof) && OnCurrent(n.protocol, c)
    requires Uncontested(n.protocol, c)
    ensures var m := RegisterAndApply(n, c, proof);
            c.Id() in m.protocol.closures && c.Id() in m.applied && PutSeal(n.protocol, c, m.protocol)
  {
    var p := n.protocol;
    RegisterExactly(p, c, proof);
    var q := p.Register(c, proof).state;
    VerifiedAgain(p, q, c, proof);
    AdvancePutsSeal(q, c);
    hide ProtocolState.Register, ProtocolState.VerifyClosure, ProtocolState.Advance, PutSeal;
    assert proof.capsuleId == c.Id() by { AboutItself(p, c, proof); }
    SamePut(p, q, c, q.Advance(c).state);
  }

  lemma AboutItself(p: ProtocolState, c: Capsule, proof: Proof)
    requires p.VerifyClosure(c, proof)
    ensures proof.capsuleId == c.Id()
  {
    hide LastReceipts, ProtocolState.Counts, ReceiptWeight, ProtocolState.RequiredWeight, SortByWitness;
  }

  lemma VerifiedAgain(p: ProtocolState, q: ProtocolState, c: Capsule, proof: Proof)
    requires p.VerifyClosure(c, proof) && q == p.(closures := q.closures)
    ensures q.VerifyClosure(c, proof)
  {
    hide LastReceipts, ReceiptWeight, SortByWitness;
    var unique := LastReceipts(proof.receipts);
    forall i | 0 <= i < |unique| ensures q.Counts(unique[i], Accept, c.Id()) { assert p.Counts(unique[i], Accept, c.Id()); }
  }

  lemma SamePut(p: ProtocolState, q: ProtocolState, c: Capsule, m: ProtocolState)
    requires OnCurrent(p, c) && q == p.(closures := q.closures) && OnCurrent(q, c) && PutSeal(q, c, m)
    ensures PutSeal(p, c, m)
  {}

  // ----- Closing

  /**
   A node that tries to close a capsule it has stored and not closed, on a current seal that nothing contests, closes it,
   applies it and puts its seal exactly when the witnesses that count weigh enough; else it changes nothing.
   */
  lemma TryCloseExactly(n: Node, c: Capsule)
    requires Filed(n.protocol) && PoolsFiled(n.receiptPool)
    requires c.Id() !in n.protocol.closures && OnCurrent(n.protocol, c)
    requires Uncontested(n.protocol, c)
    ensures var m, members := TryClose(n, c), n.protocol.members;
            if Weight(Weights(members), Voters(n.protocol, Pool(n, c.Id()))) >= Threshold(Weights(members))
            then c.Id() in m.protocol.closures && c.Id() in m.applied && PutSeal(n.protocol, c, m.protocol)
            else m == n
  {
    hide Filed, PoolsFiled, OnCurrent, Uncontested, PutSeal, Verified, Voters, CreateProof, ReceiptWeight, Weight,
         RegisterAndApply, PoolOf, ProtocolState.VerifyClosure;
    PoolIsFiled(n, c.Id());
    var p, pool := n.protocol, Pool(n, c.Id());
    VerifiedCount(p, pool, c.Id());
    var valid := Verified(p, pool);
    if ReceiptWeight(p.members, valid) >= p.RequiredWeight() {
      EnoughIsSome(p, valid);
      FiledMeans(p);
      BuiltProofVerifies(p, c, valid);
      RegisterAndApplyPuts(n, c, CreateProof(Accept, valid).value);
    }
  }

  lemma FiledMeans(p: ProtocolState)
    requires Filed(p)
    ensures FiledCapsules(p.capsules)
  {}

  lemma {:induction false} PutVoters(p: ProtocolState, rs: seq<WitnessReceipt>, r: WitnessReceipt)
    requires Distinct(rs)
    ensures Voters(p, Put(rs, r)) ==
            Voters(p, rs) - {r.Witness()} + if r.statement.status == Accept && p.VerifyReceipt(r) then {r.Witness()} else {}
  {
    hide ProtocolState.VerifyReceipt, Position;
    var at, s := Position(rs, r.Witness()), Put(rs, r);
    if at < 0 {
      VotersAppend(p, rs, r);
    } else {
      assert s[at] == r && forall i :: 0 <= i < |rs| && i != at ==> s[i] == rs[i] && rs[i].Witness() != r.Witness();
      var own := if r.statement.status == Accept && p.VerifyReceipt(r) then {r.Witness()} else {};
      forall w ensures w in Voters(p, s) <==> w in Voters(p, rs) - {r.Witness()} + own {
        if w in Voters(p, rs) && w != r.Witness() {
          var i :| 0 <= i < |rs| && rs[i].statement.status == Accept && p.VerifyReceipt(rs[i]) && rs[i].Witness() == w;
          assert s[i] == rs[i];
        }
      }
    }
  }

  lemma Completed(n: Node, r: WitnessReceipt, kept: Node)
    requires kept.protocol == n.protocol && n.protocol.VerifyReceipt(r) && r.statement.status == Accept
    requires PoolOf(Pool(n, r.statement.capsuleId), r.statement.capsuleId)
    requires kept.receiptPool == n.receiptPool[r.statement.capsuleId := Put(Pool(n, r.statement.capsuleId), r)]
    ensures Voters(n.protocol, Pool(kept, r.statement.capsuleId))
         == Voters(n.protocol, Pool(n, r.statement.capsuleId)) + {r.Witness()}
  {
    PutVoters(n.protocol, Pool(n, r.statement.capsuleId), r);
    hide Voters, Put, Distinct, ProtocolState.VerifyReceipt;
  }

  /**
   The verified ACCEPT receipt that completes a quorum closes the capsule: when it arrives for the first time, the weight
   of the witnesses pooled so far and its own decides.
   */
  lemma ReceiptCompletesQuorum(n: Node, r: WitnessReceipt, c: Capsule)
    requires Filed(n.protocol) && PoolsFiled(n.receiptPool)
    requires r.statement.capsuleId == c.Id() && c.Id() in n.protocol.capsules
    requires n.protocol.VerifyReceipt(r) && r.statement.status == Accept
    requires (c.Id(), r.Witness()) in n.receiptHistory ==> r.Id() !in n.receiptHistory[(c.Id(), r.Witness())]
    requires c.Id() !in n.protocol.closures && OnCurrent(n.protocol, c)
    requires Uncontested(n.protocol, c)
    ensures var m, members := OnReceipt(n, r).node, n.protocol.members;
            if Weight(Weights(members), Voters(n.protocol, Pool(n, c.Id())) + {r.Witness()}) >= Threshold(Weights(members))
            then c.Id() in m.protocol.closures && c.Id() in m.applied && PutSeal(n.protocol, c, m.protocol)
            else m.protocol == n.protocol && m.applied == n.applied
  {
    hide PoolOf, Put, ProtocolState.VerifyReceipt, TryClose, Voters, Weight, Threshold, Filed, OnCurrent, PutSeal;
    var key, id := (c.Id(), r.Witness()), c.Id();
    var heard := if key in n.receiptHistory then n.receiptHistory[key] else {};
    var kept := n.(receiptHistory := n.receiptHistory[key := heard + {r.Id()}],
                   receiptPool := n.receiptPool[id := Put(Pool(n, id), r)]);
    var d := n.protocol.capsules[id];
    assert d.Id() == c.Id() by { StoredUnderId(n.protocol, id); }
    assert d.body == c.body by { SameCapsule(d, c); }
    PoolIsFiled(n, id);
    PutInPool(Pool(n, id), r, id);
    Completed(n, r, kept);
    SameBody(n.protocol, c, d);
    TryCloseExactly(kept, d);
    PutSealBody(n.protocol, c, d, TryClose(kept, d).protocol);
  }

  lemma StoredUnderId(p: ProtocolState, id: Digest)
    requires Filed(p) && id in p.capsules
    ensures p.capsules[id].Id() == id
  {}

  lemma SameBody(p: ProtocolState, c: Capsule, d: Capsule)
    requires OnCurrent(p, c) && c.body == d.body
    ensures OnCurrent(p, d)
  {}

  lemma PutSealBody(p: ProtocolState, c: Capsule, d: Capsule, q: ProtocolState)
    requires OnCurrent(p, c) && OnCurrent(p, d) && c.body == d.body
    ensures PutSeal(p, c, q) == PutSeal(p, d, q)
  {}

  /** A receipt heard before changes nothing; one that does not verify, or is about an unknown capsule, only waits. */
  lemma ReceiptWaits(n: Node, r: WitnessReceipt)
    ensures var key := (r.statement.capsuleId, r.Witness());
            (key in n.receiptHistory && r.Id() in n.receiptHistory[key]) ==> OnReceipt(n, r) == Reaction(n, {})
    ensures (r.statement.capsuleId !in n.protocol.capsules || !n.protocol.VerifyReceipt(r)) ==>
              OnReceipt(n, r).node.protocol == n.protocol && OnReceipt(n, r).node.applied == n.applied
  {
    hide TryClose, Put, ProtocolState.VerifyReceipt;
  }

  // ----- Closures from others

  /** A closure that verifies, on a current seal that nothing contests, closes and applies its capsule on arrival. */
  lemma ClosureTakesEffect(n: Node, c: Capsule, proof: Proof)
    requires n.protocol.StoreCapsule(c).VerifyClosure(c, proof) && OnCurrent(n.protocol, c)
    requires Uncontested(n.protocol, c)
    ensures var m := OnClosure(n, c, proof).node;
            c.Id() in m.protocol.closures && c.Id() in m.applied && PutSeal(n.protocol, c, m.protocol)
  {
    hide PutSeal, RegisterAndApply, ProtocolState.VerifyClosure;
    var stored := n.(protocol := n.protocol.StoreCapsule(c));
    RegisterAndApplyPuts(stored, c, proof);
    StoredPut(n.protocol, c, RegisterAndApply(stored, c, proof).protocol);
  }

  lemma StoredPut(p: ProtocolState, c: Capsule, q: ProtocolState)
    requires OnCurrent(p, c)
    ensures OnCurrent(p.StoreCapsule(c), c) && PutSeal(p.StoreCapsule(c), c, q) == PutSeal(p, c, q)
  {}
}
