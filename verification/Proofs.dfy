/**
 What a proof and a bundle must be: proofs are made of agreeing receipts and name exactly their witnesses, and a bundle
 is applied exactly when its closures are the ones on file, each on a current seal.
 */
module Proofs {
  import opened Results
  import opened Model
  import opened Quorums
  import opened Certificates
  import opened Protocol

  ghost predicate AllAgree(receipts: seq<WitnessReceipt>, kind: Status) {
    && (forall r :: r in receipts ==> r.statement.status == kind)
    && forall r, s :: r in receipts && s in receipts ==> SameSubject(r, s)
  }

  /** A proof is made from some receipts of one kind that agree on capsule, predecessor, epoch and attempt, and no others. */
  lemma CreatedExactly(kind: Status, receipts: seq<WitnessReceipt>)
    ensures CreateProof(kind, receipts).Ok? <==> receipts != [] && AllAgree(receipts, kind)
    ensures CreateProof(kind, receipts).Err? ==> CreateProof(kind, receipts).error == ClosureInvalid
    ensures CreateProof(kind, receipts).Ok? ==>
              var proof := CreateProof(kind, receipts).value;
              && Sorted(proof.receipts) && multiset(proof.receipts) == multiset(receipts)
              && proof.signerIds == Signers(proof.receipts)
              && forall r :: r in receipts ==>
                   && proof.capsuleId == r.statement.capsuleId && proof.predecessorId == r.statement.predecessorId
                   && proof.epoch == r.statement.epoch && proof.attempt == r.statement.attempt
  {
    SortSpec(receipts);
    var ordered := SortByWitness(receipts);
    hide SortByWitness, Sorted, Signers, ReceiptIds;
    assert forall r :: r in receipts <==> r in ordered by {
      forall r ensures r in receipts <==> r in ordered { assert multiset(receipts)[r] == multiset(ordered)[r]; }
    }
    SameLength(receipts, ordered);
    if receipts != [] {
      assert ordered[0] in receipts;
      if AllAgree(receipts, kind) {
        forall i | 0 <= i < |ordered| ensures ordered[i].statement.status == kind && SameSubject(ordered[i], ordered[0]) {
          assert ordered[i] in receipts;
        }
      } else if CreateProof(kind, receipts).Ok? {
        assert forall i :: 0 <= i < |ordered| ==> ordered[i].statement.status == kind && SameSubject(ordered[i], ordered[0]);
      }
    }
  }

  lemma SameLength(a: seq<WitnessReceipt>, b: seq<WitnessReceipt>)
    requires multiset(a) == multiset(b)
    ensures |a| == |b|
  {
    assert |multiset(a)| == |a| && |multiset(b)| == |b|;
  }

  // ----- Closures

  /** A closure that verifies names each witness of its receipts once and nobody else, each with an ACCEPT that verifies. */
  lemma ClosureNamesWitnesses(p: ProtocolState, c: Capsule, proof: Proof)
    requires p.VerifyClosure(c, proof)
    ensures forall w :: multiset(proof.signerIds)[w] == if w in WitnessSet(proof.receipts) then 1 else 0
    ensures WitnessSet(proof.receipts) <= p.members.Keys
    ensures Weight(Weights(p.members), WitnessSet(proof.receipts)) >= Threshold(Weights(p.members))
    ensures proof.capsuleId == c.Id() && proof.predecessorId == c.body.predecessorId
    ensures proof.epoch == c.body.epoch && proof.attempt == c.body.attempt
  {
    LastReceiptsSpec(proof.receipts);
    var unique := LastReceipts(proof.receipts);
    ReceiptWeightIsWeight(p.members, unique);
    hide LastReceipts, ReceiptWeight, Weight, Distinct, WitnessSet, SortByWitness, ProtocolState.VerifyReceipt;
    CountedAreMembers(p, unique, c.Id());
    forall w ensures multiset(proof.signerIds)[w] == if w in WitnessSet(proof.receipts) then 1 else 0 {
      SignedOnce(unique, w);
    }
  }

  lemma CountedAreMembers(p: ProtocolState, rs: seq<WitnessReceipt>, id: Digest)
    requires forall i :: 0 <= i < |rs| ==> p.Counts(rs[i], Accept, id)
    ensures WitnessSet(rs) <= p.members.Keys
  {
    forall w | w in WitnessSet(rs) ensures w in p.members {
      var i :| 0 <= i < |rs| && rs[i].Witness() == w;
      assert p.Counts(rs[i], Accept, id);
    }
  }

  lemma {:induction false} SignedOnce(rs: seq<WitnessReceipt>, w: string)
    requires Distinct(rs)
    ensures multiset(Signers(rs))[w] == if w in WitnessSet(rs) then 1 else 0
  {
    if rs != [] {
      var n := |rs| - 1;
      DistinctPrefix(rs);
      SignedOnce(rs[..n], w);
      assert Signers(rs) == Signers(rs[..n]) + [rs[n].Witness()];
      hide Distinct, WitnessSet;
    }
  }

  /** A proof of abandonment is put on file for its capsule, whatever was there, and nothing else is closed or abandoned. */
  lemma AbandonIsFiled(p: ProtocolState, c: Capsule, receipts: seq<WitnessReceipt>)
    requires p.AbandonCapsule(c, receipts).result.Ok?
    ensures var o, gathered := p.AbandonCapsule(c, receipts), p.Gather(c, receipts, Status.Abandon).state;
            && o.state == gathered.(abandons := gathered.abandons[c.Id() := o.result.value])
            && c.Id() !in p.closures
  {
    hide ProtocolState.Gather, ProtocolState.Counting, ProtocolState.RequiredWeight, LastReceipts, ReceiptWeight, CreateProof;
  }

  // ----- Bundles

  /** The closure on file for the capsule is this one, it verifies, and the capsule's predecessor is a current seal. */
  ghost predicate OnFile(p: ProtocolState, e: Entry) {
    && e.0.Id() in p.closures && p.closures[e.0.Id()] == e.1 && p.VerifyClosure(e.0, e.1)
    && e.0.body.predecessorId in (set r | r in p.currentSeals :: p.currentSeals[r].Id())
  }

  /** A bundle is applied exactly when it has entries, all on file, whose closures are the ones it lists. */
  lemma BundleExactly(p: ProtocolState, bundle: BundleClosure, entries: seq<Entry>)
    ensures var o := p.ApplyBundle(bundle, entries);
            && (o.result.Ok? <==>
                && entries != [] && bundle.bundleId != ""
                && bundle.closureIds == multiset(seq(|entries|, i requires 0 <= i < |entries| => entries[i].1.proofId))
                && forall i :: 0 <= i < |entries| ==> OnFile(p, entries[i]))
            && (o.result.Err? ==> o == Outcome(p, Err(ClosureInvalid)))
            && (o.result.Ok? ==> o.state.closures == p.closures && |o.result.value| == |entries|)
  {
    forall i | 0 <= i < |entries| ensures OnFile(p, entries[i]) <==> p.EntryReady(entries[i]) {
      OnFileIsReady(p, entries[i]);
    }
    hide OnFile, ProtocolState.EntryReady, ProtocolState.InstallAll;
    if p.BundleReady(bundle, entries) { InstallingLeavesClosures(p, NextSeals(entries)); }
    assert ProofIds(entries) == seq(|entries|, i requires 0 <= i < |entries| => entries[i].1.proofId);
  }

  lemma OnFileIsReady(p: ProtocolState, e: Entry)
    ensures OnFile(p, e) <==> p.EntryReady(e)
  {
    hide LastReceipts, ReceiptWeight, SortByWitness, ProtocolState.Counts, ProtocolState.RequiredWeight;
    if p.IsCurrent(e.0.body.predecessorId) {
      var r :| r in p.currentSeals && p.currentSeals[r] == e.0.body.predecessorId.seal;
      assert p.currentSeals[r].Id() == e.0.body.predecessorId;
    }
  }

  lemma {:induction false} InstallingLeavesClosures(p: ProtocolState, seals: seq<StateSeal>)
    ensures p.InstallAll(seals).closures == p.closures
  {
    if seals != [] { InstallingLeavesClosures(p, seals[..|seals| - 1]); }
  }
}
