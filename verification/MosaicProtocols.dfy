/**
 The protocol object itself (mosaic/protocol.py): its tables are fields, its methods change them in place and leave
 exactly the state the specification in module Protocol gives, also when they raise.
 */
module MosaicProtocols {
  import opened Results
  import opened Model
  import opened Names
  import opened Sums
  import opened Quorums
  import opened Certificates
  import opened Protocol

  class MosaicProtocol {
    var members: Members
    var epoch: int
    var currentSeals: map<string, StateSeal>
    var knownSeals: map<Digest, StateSeal>
    var locks: map<Digest, Lock>
    var capsules: map<Digest, Capsule>
    var closures: map<Digest, Proof>
    var abandons: map<Digest, Proof>
    var conflictEvidence: map<Digest, ConflictEvidence>

    function State(): ProtocolState
      reads this
    {
      ProtocolState(members, epoch, currentSeals, knownSeals, locks, capsules, closures, abandons, conflictEvidence)
    }

    constructor (members: Members, epoch: int)
      ensures State() == ProtocolState(members, epoch, map[], map[], map[], map[], map[], map[], map[])
    {
      this.members, this.epoch := members, epoch;
      currentSeals, knownSeals, locks, capsules := map[], map[], map[], map[];
      closures, abandons, conflictEvidence := map[], map[], map[];
    }

    method RequiredWeight() returns (threshold: nat)
      ensures threshold == State().RequiredWeight()
    {
      var weights := Weights(members);
      SumOverNonNegative(weights, weights.Keys);
      var total := SumTable(weights, weights.Keys);
      threshold := 2 * total / 3 + 1;
    }

    method CreateResource(resourceId: string, owner: string, root: Digest, secret: Digest)
      returns (r: Result<StateSeal, Error>)
      modifies this
      ensures Outcome(State(), r) == old(State()).CreateResource(resourceId, owner, root, secret)
    {
      if resourceId in currentSeals { return Err(Refused); }
      var seal := StateSeal(resourceId, epoch, 0, root, HashOf(secret), owner);
      currentSeals := currentSeals[resourceId := seal];
      knownSeals := knownSeals[seal.Id() := seal];
      return Ok(seal);
    }

    method RecordConflict(first: Capsule, c: Capsule) returns (e: Error)
      modifies this`conflictEvidence
      ensures Outcome(State(), Err(e)) == old(State()).RaiseConflict(first, c)
    {
      match MakeConflict(first, c)
      case Err(error) => return error;
      case Ok(evidence) =>
        conflictEvidence := conflictEvidence[evidence.Id() := evidence];
        return ConflictDetected(evidence);
    }

    /** The branches of witness_receipt that take, keep or refuse the lock for an ACCEPT. */
    method LockForAccept(c: Capsule) returns (r: Result<(), Error>)
      requires c.body.predecessorId in knownSeals
      modifies this
      ensures Outcome(State(), r) == old(State()).LockForAccept(c)
    {
      var key := c.body.predecessorId;
      var resource := knownSeals[key].resourceId;
      if resource !in currentSeals { return Err(KeyError); }
      if currentSeals[resource].Id() != key {
        if key in locks && locks[key].capsuleId != c.Id() && locks[key].capsuleId in capsules {
          var e := RecordConflict(capsules[locks[key].capsuleId], c);
          return Err(e);
        }
        return Err(CapsuleInvalid);
      }
      if key !in locks {
        locks := locks[key := Lock(c.Id(), c.body.attempt, Accept)];
        capsules := capsules[c.Id() := c];
      } else if locks[key].capsuleId == c.Id() && locks[key].attempt == c.body.attempt {
      } else if locks[key].status == Status.Abandon && c.body.attempt > locks[key].attempt {
        locks := locks[key := Lock(c.Id(), c.body.attempt, Accept)];
        capsules := capsules[c.Id() := c];
      } else {
        if locks[key].capsuleId !in capsules { return Err(KeyError); }
        var e := RecordConflict(capsules[locks[key].capsuleId], c);
        return Err(e);
      }
      return Ok(());
    }

    method LockForAbandon(c: Capsule) returns (r: Result<(), Error>)
      modifies this
      ensures Outcome(State(), r) == old(State()).LockForAbandon(c)
    {
      var key := c.body.predecessorId;
      if key in locks && (locks[key].capsuleId != c.Id() || locks[key].attempt != c.body.attempt) {
        if locks[key].capsuleId !in capsules { return Err(Refused); }
        var e := RecordConflict(capsules[locks[key].capsuleId], c);
        return Err(e);
      }
      if c.Id() in closures { return Err(Refused); }
      capsules := capsules[c.Id() := c];
      locks := locks[key := Lock(c.Id(), c.body.attempt, Status.Abandon)];
      return Ok(());
    }

    method WitnessReceipt(memberId: string, c: Capsule, status: Status) returns (r: Result<WitnessReceipt, Error>)
      modifies this
      ensures Outcome(State(), r) == old(State()).Witness(memberId, c, status)
    {
      if status.OtherStatus? { return Err(Refused); }
      if !State().ValidCapsule(c) { return Err(CapsuleInvalid); }
      if memberId !in members { return Err(Refused); }
      var member := members[memberId];
      var locked;
      if status == Accept { locked := LockForAccept(c); } else { locked := LockForAbandon(c); }
      if locked.Err? { return Err(locked.error); }
      if !member.loaded { return Err(Refused); }
      return Ok(SignedReceipt(member.publicKey, memberId, c.body, status));
    }

    predicate AllCount(rs: seq<WitnessReceipt>, id: Digest)
      reads this
    {
      forall i :: 0 <= i < |rs| ==> State().Counts(rs[i], Accept, id)
    }

    method VerifyClosure(c: Capsule, proof: Proof) returns (ok: bool)
      ensures ok == State().VerifyClosure(c, proof)
    {
      hide LastReceipts, Signers, SortByWitness, ReceiptIds, ReceiptWeight, ProtocolState.Counts,
           ProtocolState.MatchesCapsule, ProtocolState.RequiredWeight;
      if !State().MatchesCapsule(c, proof) { return false; }
      var unique := LastReceipts(proof.receipts);
      if multiset(Signers(unique)) != multiset(proof.signerIds) { return false; }
      var valid := AllCount(unique, c.Id());
      var threshold := RequiredWeight();
      var expected := ProofDigest(Accept, c.Id(), c.body.predecessorId, c.body.epoch, c.body.attempt,
                                  ReceiptIds(SortByWitness(unique)));
      return valid && ReceiptWeight(members, unique) >= threshold && expected == proof.proofId;
    }

    method RegisterClosure(c: Capsule, proof: Proof) returns (r: Result<(), Error>)
      modifies this`closures
      ensures Outcome(State(), r) == old(State()).Register(c, proof)
    {
      var verified := VerifyClosure(c, proof);
      if !verified || State().Disputed(c.body.predecessorId) { return Err(ClosureInvalid); }
      if c.Id() !in closures { closures := closures[c.Id() := proof]; }
      return Ok(());
    }

    /** One round of collecting receipts. */
    method CollectNext(receipts: seq<WitnessReceipt>, memberId: string, c: Capsule, kind: Status)
      returns (r: Result<seq<WitnessReceipt>, Error>)
      modifies this
      ensures Outcome(State(), r) == old(State()).CollectNext(receipts, memberId, c, kind)
    {
      hide ProtocolState.Witness, ProtocolState.VerifyReceipt;
      var signed := WitnessReceipt(memberId, c, kind);
      if signed.Err? { return if State().SkipsOver(signed.error, kind) then Ok(receipts) else Err(signed.error); }
      return Ok(receipts + if State().VerifyReceipt(signed.value) then [signed.value] else []);
    }

    /** collect_accept_receipts and collect_abandon_receipts, which differ in the exceptions they skip. */
    method CollectReceipts(c: Capsule, kind: Status) returns (r: Result<seq<WitnessReceipt>, Error>)
      modifies this
      ensures Outcome(State(), r) == old(State()).Collect(SortedNames(old(members).Keys), c, kind)
    {
      hide ProtocolState.CollectNext, SortedNames;
      var names := SortedNames(members.Keys);
      var receipts: seq<WitnessReceipt> := [];
      for i := 0 to |names|
        invariant Outcome(State(), Ok(receipts)) == old(State()).Collect(names[..i], c, kind)
      {
        assert names[..i + 1][..i] == names[..i];
        var next := CollectNext(receipts, names[i], c, kind);
        if next.Err? {
          CollectRaises(old(State()), names, c, kind, i + 1);
          return next;
        }
        receipts := next.value;
      }
      assert names[..|names|] == names;
      return Ok(receipts);
    }

    method Close(c: Capsule, receipts: seq<WitnessReceipt>) returns (r: Result<Proof, Error>)
      modifies this
      ensures Outcome(State(), r) == old(State()).Close(c, receipts)
    {
      if !State().ValidCapsule(c) { return Err(CapsuleInvalid); }
      var gathered: Result<seq<WitnessReceipt>, Error> := Ok(receipts);
      if receipts == [] { gathered := CollectReceipts(c, Accept); }
      if gathered.Err? { return Err(gathered.error); }
      r := CloseWith(c, gathered.value);
    }

    /** The rest of close, once the receipts are at hand. */
    method CloseWith(c: Capsule, receipts: seq<WitnessReceipt>) returns (r: Result<Proof, Error>)
      modifies this`closures
      ensures Outcome(State(), r) == old(State()).CloseWith(c, receipts)
    {
      var valid := State().Counting(LastReceipts(receipts), Accept, c.Id());
      var threshold := RequiredWeight();
      if ReceiptWeight(members, valid) < threshold || State().Disputed(c.body.predecessorId) {
        return Err(ClosureInvalid);
      }
      var made := CreateProof(Accept, valid);
      if made.Err? { return Err(made.error); }
      var registered := RegisterClosure(c, made.value);
      if registered.Err? { return Err(registered.error); }
      return made;
    }

    method Abandon(c: Capsule, receipts: seq<WitnessReceipt>) returns (r: Result<Proof, Error>)
      modifies this
      ensures Outcome(State(), r) == old(State()).AbandonCapsule(c, receipts)
    {
      if c.Id() in closures { return Err(ClosureInvalid); }
      var gathered: Result<seq<WitnessReceipt>, Error> := Ok(receipts);
      if receipts == [] { gathered := CollectReceipts(c, Status.Abandon); }
      if gathered.Err? { return Err(gathered.error); }
      r := AbandonWith(c, gathered.value);
    }

    /** The rest of abandon, once the receipts are at hand. */
    method AbandonWith(c: Capsule, receipts: seq<WitnessReceipt>) returns (r: Result<Proof, Error>)
      modifies this`abandons
      ensures Outcome(State(), r) == old(State()).AbandonWith(c, receipts)
    {
      var valid := State().Counting(LastReceipts(receipts), Status.Abandon, c.Id());
      var threshold := RequiredWeight();
      if ReceiptWeight(members, valid) < threshold { return Err(ClosureInvalid); }
      r := CreateProof(Status.Abandon, valid);
      if r.Ok? { abandons := abandons[c.Id() := r.value]; }
    }

    method Apply(c: Capsule, proof: Proof) returns (r: Result<StateSeal, Error>)
      modifies this
      ensures Outcome(State(), r) == old(State()).Apply(c, proof)
    {
      if proof.capsuleId != c.Id() { return Err(ClosureInvalid); }
      var verified := VerifyClosure(c, proof);
      if !verified { return Err(ClosureInvalid); }
      if c.Id() !in closures {
        var registered := RegisterClosure(c, proof);
        if registered.Err? { return Err(registered.error); }
      }
      r := Advance(c);
    }

    /** The rest of apply, once the closure is verified and registered. */
    method Advance(c: Capsule) returns (r: Result<StateSeal, Error>)
      modifies this`currentSeals, this`knownSeals
      ensures Outcome(State(), r) == old(State()).Advance(c)
    {
      if c.body.predecessorId !in knownSeals { return Err(ClosureInvalid); }
      var predecessor := knownSeals[c.body.predecessorId];
      if predecessor.resourceId !in currentSeals { return Err(ClosureInvalid); }
      var current := currentSeals[predecessor.resourceId];
      if current.Id() != c.body.predecessorId {
        if current.version == predecessor.version + 1 && current.stateRoot == c.body.successorRoot
           && current.capabilityHash == HashOf(c.Id()) {
          return Ok(current);
        }
        return Err(ClosureInvalid);
      }
      var next := StateSeal(current.resourceId, current.epoch, current.version + 1, c.body.successorRoot,
                            HashOf(c.Id()), c.body.clientId);
      currentSeals := currentSeals[current.resourceId := next];
      knownSeals := knownSeals[next.Id() := next];
      return Ok(next);
    }

    method FindSuccessor(c: Capsule) returns (found: Option<StateSeal>)
      ensures found.None? <==> !State().HasSuccessor(c)
      ensures found.Some? ==>
                exists id :: id in knownSeals && knownSeals[id] == found.value && State().LooksLikeSuccessor(c, knownSeals[id])
    {
      var rest := knownSeals.Keys;
      while rest != {}
        invariant rest <= knownSeals.Keys
        invariant forall id :: id in knownSeals && id !in rest ==> !State().LooksLikeSuccessor(c, knownSeals[id])
        decreases |rest|
      {
        var id :| id in rest;
        if State().LooksLikeSuccessor(c, knownSeals[id]) { return Some(knownSeals[id]); }
        rest := rest - {id};
      }
      return None;
    }

    method FindConflict(c: Capsule) returns (found: Option<ConflictEvidence>)
      ensures found.None? <==> !State().InConflict(c)
      ensures found.Some? ==>
                exists id :: id in conflictEvidence && conflictEvidence[id] == found.value && c.Id() in found.value.sides
    {
      var rest := conflictEvidence.Keys;
      while rest != {}
        invariant rest <= conflictEvidence.Keys
        invariant forall id :: id in conflictEvidence && id !in rest ==> c.Id() !in conflictEvidence[id].sides
        decreases |rest|
      {
        var id :| id in rest;
        if c.Id() in conflictEvidence[id].sides { return Some(conflictEvidence[id]); }
        rest := rest - {id};
      }
      return None;
    }

    /** The evidence of a conflict names two capsules, as ConflictEvidence.create makes it. */
    method TransitionOutcome(c: Capsule) returns (o: Option<TransitionOutcome>)
      requires forall id :: id in conflictEvidence ==> |conflictEvidence[id].sides| == 2
      ensures State().Observes(c, o)
    {
      var successor := FindSuccessor(c);
      if c.Id() in closures && successor.Some? {
        return Some(Protocol.TransitionOutcome(c.Id(), c.body.predecessorId, Closed, [closures[c.Id()].proofId],
                                               Some(successor.value.Id()), []));
      }
      var conflict := FindConflict(c);
      if conflict.Some? {
        var other := OtherSide(conflict.value.sides, c.Id());
        return Some(Protocol.TransitionOutcome(c.Id(), c.body.predecessorId, Conflict, [conflict.value.Id()], None, [other]));
      }
      if c.Id() in abandons {
        return Some(Protocol.TransitionOutcome(c.Id(), c.body.predecessorId, Abandoned, [abandons[c.Id()].proofId], None, []));
      }
      return None;
    }

    /** The checks apply_bundle makes on every entry before it changes anything. */
    method CheckEntries(entries: seq<Entry>) returns (ok: bool)
      ensures ok <==> forall i :: 0 <= i < |entries| ==> State().EntryReady(entries[i])
    {
      hide ProtocolState.VerifyClosure, ProtocolState.IsCurrent;
      for i := 0 to |entries|
        invariant forall k :: 0 <= k < i ==> State().EntryReady(entries[k])
      {
        var c, proof := entries[i].0, entries[i].1;
        if c.Id() !in closures || closures[c.Id()] != proof || proof.capsuleId != c.Id() { return false; }
        var verified := VerifyClosure(c, proof);
        if !verified || !State().IsCurrent(c.body.predecessorId) { return false; }
      }
      return true;
    }

    method InstallSeals(seals: seq<StateSeal>)
      modifies this`currentSeals, this`knownSeals
      ensures State() == old(State()).InstallAll(seals)
    {
      for i := 0 to |seals|
        invariant State() == old(State()).InstallAll(seals[..i])
      {
        currentSeals := currentSeals[seals[i].resourceId := seals[i]];
        knownSeals := knownSeals[seals[i].Id() := seals[i]];
        assert seals[..i + 1][..i] == seals[..i];
      }
      assert seals[..|seals|] == seals;
    }

    method ApplyBundle(bundle: BundleClosure, entries: seq<Entry>) returns (r: Result<seq<StateSeal>, Error>)
      modifies this`currentSeals, this`knownSeals
      ensures Outcome(State(), r) == old(State()).ApplyBundle(bundle, entries)
    {
      if entries == [] || bundle.bundleId == "" { return Err(ClosureInvalid); }
      if multiset(ProofIds(entries)) != bundle.closureIds { return Err(ClosureInvalid); }
      var ready := CheckEntries(entries);
      if !ready { return Err(ClosureInvalid); }
      assert forall i :: 0 <= i < |entries| ==> entries[i].0.body.predecessorId.SealDigest? by {
        forall i | 0 <= i < |entries| ensures entries[i].0.body.predecessorId.SealDigest? {
          assert State().EntryReady(entries[i]);
        }
      }
      hide ProtocolState.EntryReady;
      var seals := BuildSeals(entries);
      InstallSeals(seals);
      return Ok(seals);
    }
  }

  /** What raises while receipts are collected is what the whole collection raises. */
  lemma {:induction false} CollectRaises(p: ProtocolState, names: seq<string>, c: Capsule, kind: Status, n: nat)
    requires n <= |names| && p.Collect(names[..n], c, kind).result.Err?
    ensures p.Collect(names, c, kind) == p.Collect(names[..n], c, kind)
    decreases |names| - n
  {
    hide ProtocolState.CollectNext;
    if n == |names| {
      assert names[..n] == names;
    } else {
      assert names[..n + 1][..n] == names[..n];
      CollectRaises(p, names, c, kind, n + 1);
    }
  }

  method BuildSeals(entries: seq<Entry>) returns (seals: seq<StateSeal>)
    requires forall i :: 0 <= i < |entries| ==> entries[i].0.body.predecessorId.SealDigest?
    ensures seals == NextSeals(entries)
  {
    seals := [];
    for i := 0 to |entries|
      invariant |seals| == i && forall k :: 0 <= k < i ==> seals[k] == NextSeals(entries)[k]
    {
      var c := entries[i].0;
      var current := c.body.predecessorId.seal;
      seals := seals + [StateSeal(current.resourceId, current.epoch, current.version + 1, c.body.successorRoot,
                                  HashOf(c.Id()), c.body.clientId)];
    }
  }

  method OtherSide(sides: map<Digest, Signature>, id: Digest) returns (other: Digest)
    requires id in sides && |sides| == 2
    ensures sides.Keys == {id, other} && other != id
  {
    var rest := sides.Keys - {id};
    assert |sides.Keys| == 2 && |rest| == 1;
    other :| other in rest;
    assert |rest - {other}| == 0;
    assert sides.Keys == {id, other};
  }
}
