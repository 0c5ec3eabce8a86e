/**
 What counts towards a proof, and when receipts at hand close or abandon a capsule: a proof built from counted receipts
 always passes the verification that follows, so only the weight and recorded conflicts decide.
 */
module Closing {
  import opened Results
  import opened Model
  import opened Quorums
  import opened Certificates
  import opened Protocol
  import opened SealChain

  lemma {:induction false} CountingSpec(p: ProtocolState, rs: seq<WitnessReceipt>, kind: Status, id: Digest)
    ensures forall i :: 0 <= i < |p.Counting(rs, kind, id)| ==> p.Counts(p.Counting(rs, kind, id)[i], kind, id)
    ensures WitnessSet(p.Counting(rs, kind, id)) <= WitnessSet(rs)
    ensures Distinct(rs) ==> Distinct(p.Counting(rs, kind, id))
  {
    if rs != [] {
      hide ProtocolState.Counts;
      var n := |rs| - 1;
      CountingSpec(p, rs[..n], kind, id);
      assert rs == rs[..n] + [rs[n]];
      WitnessSetAppend(rs[..n], rs[n]);
      if Distinct(rs) {
        DistinctPrefix(rs);
        if p.Counts(rs[n], kind, id) {
          hide Distinct, WitnessSet;
          DistinctAppend(p.Counting(rs[..n], kind, id), rs[n]);
        }
      }
      if p.Counts(rs[n], kind, id) {
        WitnessSetAppend(p.Counting(rs[..n], kind, id), rs[n]);
      }
    }
  }

  /** All the receipts count for one capsule. */
  ghost predicate AllCount(p: ProtocolState, rs: seq<WitnessReceipt>, kind: Status, id: Digest) {
    forall i :: 0 <= i < |rs| ==> p.Counts(rs[i], kind, id)
  }

  lemma SortedCount(p: ProtocolState, rs: seq<WitnessReceipt>, kind: Status, id: Digest)
    requires AllCount(p, rs, kind, id)
    ensures AllCount(p, SortByWitness(rs), kind, id)
    ensures rs != [] ==> SortByWitness(rs) != []
  {
    hide ProtocolState.Counts, SortByWitness;
    SortSpec(rs);
    var s := SortByWitness(rs);
    forall i | 0 <= i < |s| ensures p.Counts(s[i], kind, id) {
      assert s[i] in multiset(rs);
    }
    if rs != [] { assert rs[0] in multiset(s); }
  }

  /** The proof says of the capsule exactly what these receipts say. */
  predicate ProofOf(body: CapsuleBody, id: Digest, kind: Status, receipts: seq<WitnessReceipt>, proof: Proof) {
    && proof.receipts == receipts && proof.signerIds == Signers(receipts)
    && proof.capsuleId == id && proof.predecessorId == body.predecessorId
    && proof.epoch == body.epoch && proof.attempt == body.attempt
    && proof.proofId == ProofDigest(kind, id, body.predecessorId, body.epoch, body.attempt, ReceiptIds(receipts))
  }

  /** Counted receipts of one filed capsule always make a proof about that capsule. */
  lemma CountedMakeProof(p: ProtocolState, rs: seq<WitnessReceipt>, kind: Status, id: Digest)
    requires AllCount(p, rs, kind, id) && rs != []
    ensures id in p.capsules && CreateProof(kind, rs).Ok?
    ensures ProofOf(p.capsules[id].body, id, kind, SortByWitness(rs), CreateProof(kind, rs).value)
  {
    SortedCount(p, rs, kind, id);
    var s := SortByWitness(rs);
    hide SortByWitness;
    assert p.Counts(s[0], kind, id);
    forall i | 0 <= i < |s| ensures s[i].statement.status == kind && SameSubject(s[i], s[0]) {
      assert p.Counts(s[i], kind, id);
    }
  }

  /** Sorting distinct receipts leaves a dict of them, and their weight, as they were. */
  lemma SortedAgain(members: Members, rs: seq<WitnessReceipt>)
    requires Distinct(rs)
    ensures var s := SortByWitness(rs);
            LastReceipts(s) == s && SortByWitness(s) == s && ReceiptWeight(members, s) == ReceiptWeight(members, rs)
  {
    var s := SortByWitness(rs);
    SortDistinct(rs);
    SortSpec(rs);
    LastReceiptsOfDistinct(s);
    SortOfSorted(s);
    ReceiptWeightIsWeight(members, rs);
    ReceiptWeightIsWeight(members, s);
    hide *;
  }

  lemma ProofVerifies(p: ProtocolState, c: Capsule, rs: seq<WitnessReceipt>, proof: Proof)
    requires ProofOf(c.body, c.Id(), Accept, rs, proof)
    requires LastReceipts(rs) == rs && SortByWitness(rs) == rs && AllCount(p, rs, Accept, c.Id())
    requires ReceiptWeight(p.members, rs) >= p.RequiredWeight()
    ensures p.VerifyClosure(c, proof)
  {
    hide SortByWitness, LastReceipts, ReceiptWeight, Signers, ReceiptIds, ProtocolState.RequiredWeight,
         ProtocolState.Counts;
  }

  /** The proof close builds passes the check register_closure makes. */
  lemma BuiltProofVerifies(p: ProtocolState, c: Capsule, rs: seq<WitnessReceipt>)
    requires AllCount(p, rs, Accept, c.Id()) && rs != [] && Distinct(rs) && FiledCapsules(p.capsules)
    requires ReceiptWeight(p.members, rs) >= p.RequiredWeight()
    ensures CreateProof(Accept, rs).Ok? && p.VerifyClosure(c, CreateProof(Accept, rs).value)
  {
    hide CreateProof, SortByWitness, LastReceipts, ReceiptWeight, AllCount, Distinct, ProofOf,
         ProtocolState.RequiredWeight, ProtocolState.VerifyClosure;
    CountedMakeProof(p, rs, Accept, c.Id());
    SortedCount(p, rs, Accept, c.Id());
    SortedAgain(p.members, rs);
    assert p.capsules[c.Id()].body == c.body;
    ProofVerifies(p, c, SortByWitness(rs), CreateProof(Accept, rs).value);
  }

  lemma EnoughIsSome(p: ProtocolState, rs: seq<WitnessReceipt>)
    requires ReceiptWeight(p.members, rs) >= p.RequiredWeight()
    ensures rs != []
  {}

  /** With receipts at hand, close succeeds exactly when the counted ones weigh enough and nothing is disputed. */
  lemma CloseWithExactly(p: ProtocolState, c: Capsule, receipts: seq<WitnessReceipt>)
    requires Filed(p)
    ensures var valid := p.Counting(LastReceipts(receipts), Accept, c.Id());
            p.CloseWith(c, receipts).result.Ok? <==>
            ReceiptWeight(p.members, valid) >= p.RequiredWeight() && !p.Disputed(c.body.predecessorId)
    ensures var o := p.CloseWith(c, receipts);
            o.result.Ok? ==> p.VerifyClosure(c, o.result.value) && c.Id() in o.state.closures
  {
    hide ProtocolState.VerifyClosure, ProtocolState.RequiredWeight, ProtocolState.Counting, ProtocolState.Counts,
         LastReceipts, CreateProof, ReceiptWeight, ProtocolState.Disputed, Distinct,
         FiledLocks, FiledProofs, FiledEvidence, FiledCapsules, WitnessSet;
    var unique := LastReceipts(receipts);
    LastReceiptsSpec(receipts);
    CountingSpec(p, unique, Accept, c.Id());
    var valid := p.Counting(unique, Accept, c.Id());
    if ReceiptWeight(p.members, valid) >= p.RequiredWeight() {
      EnoughIsSome(p, valid);
      BuiltProofVerifies(p, c, valid);
    }
  }

  /** With receipts at hand, abandon succeeds exactly when the counted ones weigh enough. */
  lemma AbandonWithExactly(p: ProtocolState, c: Capsule, receipts: seq<WitnessReceipt>)
    ensures var valid := p.Counting(LastReceipts(receipts), Abandon, c.Id());
            p.AbandonWith(c, receipts).result.Ok? <==> ReceiptWeight(p.members, valid) >= p.RequiredWeight()
    ensures var o := p.AbandonWith(c, receipts);
            o.result.Ok? ==> o.result.value.capsuleId == c.Id()
  {
    hide ProtocolState.RequiredWeight, ProtocolState.Counting, ProtocolState.Counts, LastReceipts, CreateProof,
         ReceiptWeight, Distinct, WitnessSet;
    var unique := LastReceipts(receipts);
    CountingSpec(p, unique, Abandon, c.Id());
    var valid := p.Counting(unique, Abandon, c.Id());
    if ReceiptWeight(p.members, valid) >= p.RequiredWeight() {
      EnoughIsSome(p, valid);
      CountedMakeProof(p, valid, Abandon, c.Id());
    }
  }
}
