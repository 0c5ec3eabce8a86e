/**
 The closure protocol of one node (mosaic/protocol.py): first-claim locks, receipts, weighted closures, abandonment,
 seal chains, bundles and observed outcomes. `ProtocolState` holds what each operation does to the node's fields and
 what it returns or raises; `MosaicProtocol` is the object that performs them in place.
 */
module Protocol {
  import opened Results
  import opened Model
  import opened Names
  import opened Quorums
  import opened Certificates

  datatype Lock = Lock(capsuleId: Digest, attempt: int, status: Status)

  /** The state an operation leaves, also when it raises, and what it returns or raises. */
  datatype Outcome<T> = Outcome(state: ProtocolState, result: Result<T, Error>)

  type Entry = (Capsule, Proof)

  datatype EctcStatus = Closed | Conflict | Abandoned

  datatype TransitionOutcome = TransitionOutcome(
    capsuleId: Digest,
    predecessorId: Digest,
    status: EctcStatus,
    evidenceIds: seq<Digest>,
    successorSealId: Option<Digest>,
    conflictingCapsuleIds: seq<Digest>)
  {
    predicate IsEvidenceComplete() {
      if status.Closed? then evidenceIds != [] && successorSealId.Some? else evidenceIds != []
    }
  }

  /** The seal a capsule puts after its predecessor. */
  function Successor(seal: StateSeal, body: CapsuleBody): StateSeal {
    StateSeal(seal.resourceId, seal.epoch, seal.version + 1, body.successorRoot, HashOf(body.Id()), body.clientId)
  }

  /** ConflictEvidence.create */
  function MakeConflict(first: Capsule, second: Capsule): Result<ConflictEvidence, Error> {
    if first.body.predecessorId != second.body.predecessorId || first.Id() == second.Id() then Err(Refused)
    else
      Ok(ConflictEvidence(first.body.predecessorId,
                          map[first.Id() := first.clientSignature, second.Id() := second.clientSignature]))
  }

  function SignedReceipt(key: string, witnessId: string, body: CapsuleBody, status: Status): WitnessReceipt {
    var statement := ReceiptStatement(body.Id(), body.predecessorId, witnessId, body.epoch, body.attempt, status);
    WitnessReceipt(statement, ByWitness(key, statement))
  }

  datatype ProtocolState = ProtocolState(
    members: Members,
    epoch: int,
    currentSeals: map<string, StateSeal>,
    knownSeals: map<Digest, StateSeal>,
    locks: map<Digest, Lock>,
    capsules: map<Digest, Capsule>,
    closures: map<Digest, Proof>,
    abandons: map<Digest, Proof>,
    conflictEvidence: map<Digest, ConflictEvidence>)
  {
    ghost function RequiredWeight(): nat { Threshold(Weights(members)) }

    function CreateResource(resourceId: string, owner: string, root: Digest, secret: Digest): Outcome<StateSeal> {
      if resourceId in currentSeals then Outcome(this, Err(Refused))
      else
        var seal := StateSeal(resourceId, epoch, 0, root, HashOf(secret), owner);
        Outcome(Install(seal), Ok(seal))
    }

    function Install(seal: StateSeal): ProtocolState {
      this.(currentSeals := currentSeals[seal.resourceId := seal], knownSeals := knownSeals[seal.Id() := seal])
    }

    /** A node keeps every capsule it is shown, valid or not. */
    function StoreCapsule(c: Capsule): ProtocolState { this.(capsules := capsules[c.Id() := c]) }

    predicate ValidCapsule(c: Capsule) {
      && c.body.predecessorId in knownSeals
      && c.body.epoch == epoch && knownSeals[c.body.predecessorId].epoch == epoch
      && c.VerifyClientSignature()
      && c.body.attempt >= 0
      && c.body.successorRoot != Text("")
    }

    predicate VerifyReceipt(r: WitnessReceipt) {
      && r.Witness() in members
      && r.statement.capsuleId in capsules
      && var body := capsules[r.statement.capsuleId].body;
      && r.statement.predecessorId == body.predecessorId
      && r.statement.epoch == body.epoch == epoch
      && r.statement.attempt == body.attempt
      && r.signature == ByWitness(members[r.Witness()].publicKey, r.statement)
    }

    // ----- Witnessing

    function RaiseConflict(first: Capsule, c: Capsule): Outcome<()> {
      match MakeConflict(first, c)
      case Err(e) => Outcome(this, Err(e))
      case Ok(evidence) =>
        Outcome(this.(conflictEvidence := conflictEvidence[evidence.Id() := evidence]), Err(ConflictDetected(evidence)))
    }

    function TakeLock(c: Capsule, status: Status): ProtocolState {
      this.(locks := locks[c.body.predecessorId := Lock(c.Id(), c.body.attempt, status)], capsules := capsules[c.Id() := c])
    }

    function LockForAccept(c: Capsule): Outcome<()>
      requires c.body.predecessorId in knownSeals
    {
      var key := c.body.predecessorId;
      var resource := knownSeals[key].resourceId;
      if resource !in currentSeals then Outcome(this, Err(KeyError))
      else if currentSeals[resource].Id() != key then
        if key in locks && locks[key].capsuleId != c.Id() && locks[key].capsuleId in capsules
        then RaiseConflict(capsules[locks[key].capsuleId], c)
        else Outcome(this, Err(CapsuleInvalid))
      else if key !in locks then Outcome(TakeLock(c, Accept), Ok(()))
      else if locks[key].capsuleId == c.Id() && locks[key].attempt == c.body.attempt then Outcome(this, Ok(()))
      else if locks[key].status == Abandon && c.body.attempt > locks[key].attempt
      then Outcome(TakeLock(c, Accept), Ok(()))
      else if locks[key].capsuleId !in capsules then Outcome(this, Err(KeyError))
      else RaiseConflict(capsules[locks[key].capsuleId], c)
    }

    function LockForAbandon(c: Capsule): Outcome<()> {
      var key := c.body.predecessorId;
      if key in locks && (locks[key].capsuleId != c.Id() || locks[key].attempt != c.body.attempt) then
        if locks[key].capsuleId in capsules then RaiseConflict(capsules[locks[key].capsuleId], c)
        else Outcome(this, Err(Refused))
      else if c.Id() in closures then Outcome(this, Err(Refused))
      else Outcome(TakeLock(c, Abandon), Ok(()))
    }

    function Witness(memberId: string, c: Capsule, status: Status): Outcome<WitnessReceipt> {
      if status.OtherStatus? then Outcome(this, Err(Refused))
      else if !ValidCapsule(c) then Outcome(this, Err(CapsuleInvalid))
      else if memberId !in members then Outcome(this, Err(Refused))
      else
        var locked := if status == Accept then LockForAccept(c) else LockForAbandon(c);
        match locked.result
        case Err(e) => Outcome(locked.state, Err(e))
        case Ok(_) =>
          if !members[memberId].loaded then Outcome(locked.state, Err(Refused))
          else Outcome(locked.state, Ok(SignedReceipt(members[memberId].publicKey, memberId, c.body, status)))
    }

    // ----- Proofs

    predicate Counts(r: WitnessReceipt, kind: Status, capsuleId: Digest) {
      VerifyReceipt(r) && r.statement.status == kind && r.statement.capsuleId == capsuleId
    }

    function Counting(rs: seq<WitnessReceipt>, kind: Status, capsuleId: Digest): seq<WitnessReceipt> {
      if rs == [] then []
      else
        Counting(rs[..|rs| - 1], kind, capsuleId) + if Counts(rs[|rs| - 1], kind, capsuleId) then [rs[|rs| - 1]] else []
    }

    predicate MatchesCapsule(c: Capsule, proof: Proof) {
      && proof.capsuleId == c.Id() && proof.predecessorId == c.body.predecessorId
      && proof.epoch == c.body.epoch && proof.attempt == c.body.attempt
    }

    /** Sorted tuples of names are equal exactly when the names are equal as multisets. */
    ghost predicate VerifyClosure(c: Capsule, proof: Proof) {
      && MatchesCapsule(c, proof)
      && var unique := LastReceipts(proof.receipts);
      && multiset(Signers(unique)) == multiset(proof.signerIds)
      && (forall i :: 0 <= i < |unique| ==> Counts(unique[i], Accept, c.Id()))
      && ReceiptWeight(members, unique) >= RequiredWeight()
      && proof.proofId == ProofDigest(Accept, c.Id(), c.body.predecessorId, c.body.epoch, c.body.attempt,
                                      ReceiptIds(SortByWitness(unique)))
    }

    predicate Disputed(predecessorId: Digest) {
      exists id :: id in conflictEvidence && conflictEvidence[id].predecessorId == predecessorId
    }

    ghost function Register(c: Capsule, proof: Proof): Outcome<()> {
      if !VerifyClosure(c, proof) || Disputed(c.body.predecessorId) then Outcome(this, Err(ClosureInvalid))
      else if c.Id() in closures then Outcome(this, Ok(()))
      else Outcome(this.(closures := closures[c.Id() := proof]), Ok(()))
    }

    /** Whether collecting receipts goes on after this exception, or lets it out. */
    predicate SkipsOver(e: Error, kind: Status) { if kind == Accept then e.ConflictDetected? else e != KeyError }

    /** One more member signs with its locally loaded key. */
    function CollectNext(receipts: seq<WitnessReceipt>, memberId: string, c: Capsule, kind: Status)
      : Outcome<seq<WitnessReceipt>>
    {
      var signed := Witness(memberId, c, kind);
      match signed.result
      case Err(e) => Outcome(signed.state, if SkipsOver(e, kind) then Ok(receipts) else Err(e))
      case Ok(r) => Outcome(signed.state, Ok(receipts + if signed.state.VerifyReceipt(r) then [r] else []))
    }

    /** The members of the list sign in turn. */
    function Collect(names: seq<string>, c: Capsule, kind: Status): Outcome<seq<WitnessReceipt>> {
      if names == [] then Outcome(this, Ok([]))
      else
        var before := Collect(names[..|names| - 1], c, kind);
        if before.result.Err? then before
        else before.state.CollectNext(before.result.value, names[|names| - 1], c, kind)
    }

    /** The receipts given, or those collected when none are. */
    function Gather(c: Capsule, receipts: seq<WitnessReceipt>, kind: Status): Outcome<seq<WitnessReceipt>> {
      if receipts == [] then Collect(SortedNames(members.Keys), c, kind) else Outcome(this, Ok(receipts))
    }

    /** The part of close after the receipts are at hand. */
    ghost function CloseWith(c: Capsule, receipts: seq<WitnessReceipt>): Outcome<Proof> {
      var valid := Counting(LastReceipts(receipts), Accept, c.Id());
      if ReceiptWeight(members, valid) < RequiredWeight() || Disputed(c.body.predecessorId)
      then Outcome(this, Err(ClosureInvalid))
      else
        match CreateProof(Accept, valid)
        case Err(e) => Outcome(this, Err(e))
        case Ok(proof) =>
          var registered := Register(c, proof);
          Outcome(registered.state, if registered.result.Ok? then Ok(proof) else Err(registered.result.error))
    }

    ghost function Close(c: Capsule, receipts: seq<WitnessReceipt>): Outcome<Proof> {
      if !ValidCapsule(c) then Outcome(this, Err(CapsuleInvalid))
      else
        var gathered := Gather(c, receipts, Accept);
        if gathered.result.Err? then Outcome(gathered.state, Err(gathered.result.error))
        else gathered.state.CloseWith(c, gathered.result.value)
    }

    /** The part of abandon after the receipts are at hand. */
    ghost function AbandonWith(c: Capsule, receipts: seq<WitnessReceipt>): Outcome<Proof> {
      var valid := Counting(LastReceipts(receipts), Abandon, c.Id());
      if ReceiptWeight(members, valid) < RequiredWeight() then Outcome(this, Err(ClosureInvalid))
      else
        match CreateProof(Abandon, valid)
        case Err(e) => Outcome(this, Err(e))
        case Ok(proof) => Outcome(this.(abandons := abandons[c.Id() := proof]), Ok(proof))
    }

    ghost function AbandonCapsule(c: Capsule, receipts: seq<WitnessReceipt>): Outcome<Proof> {
      if c.Id() in closures then Outcome(this, Err(ClosureInvalid))
      else
        var gathered := Gather(c, receipts, Abandon);
        if gathered.result.Err? then Outcome(gathered.state, Err(gathered.result.error))
        else gathered.state.AbandonWith(c, gathered.result.value)
    }

    // ----- Applying

    /** The part of apply after the closure is verified and registered. */
    function Advance(c: Capsule): Outcome<StateSeal> {
      if c.body.predecessorId !in knownSeals then Outcome(this, Err(ClosureInvalid))
      else
        var predecessor := knownSeals[c.body.predecessorId];
        if predecessor.resourceId !in currentSeals then Outcome(this, Err(ClosureInvalid))
        else
          var current := currentSeals[predecessor.resourceId];
          if current.Id() != c.body.predecessorId then
            if current.version == predecessor.version + 1 && current.stateRoot == c.body.successorRoot
               && current.capabilityHash == HashOf(c.Id())
            then Outcome(this, Ok(current))
            else Outcome(this, Err(ClosureInvalid))
          else Outcome(Install(Successor(current, c.body)), Ok(Successor(current, c.body)))
    }

    ghost function Apply(c: Capsule, proof: Proof): Outcome<StateSeal> {
      if proof.capsuleId != c.Id() || !VerifyClosure(c, proof) then Outcome(this, Err(ClosureInvalid))
      else
        var registered := if c.Id() in closures then Outcome(this, Ok(())) else Register(c, proof);
        if registered.result.Err? then Outcome(registered.state, Err(registered.result.error))
        else registered.state.Advance(c)
    }

    // ----- Bundles

    /** Seal identifiers are injective, so the current seal with this identifier is the one inside it. */
    predicate IsCurrent(sealId: Digest) {
      sealId.SealDigest? && exists r :: r in currentSeals && currentSeals[r] == sealId.seal
    }

    ghost predicate EntryReady(e: Entry) {
      && e.0.Id() in closures && closures[e.0.Id()] == e.1
      && e.1.capsuleId == e.0.Id()
      && VerifyClosure(e.0, e.1)
      && IsCurrent(e.0.body.predecessorId)
    }

    ghost predicate BundleReady(bundle: BundleClosure, entries: seq<Entry>) {
      && entries != [] && bundle.bundleId != ""
      && multiset(ProofIds(entries)) == bundle.closureIds
      && forall i :: 0 <= i < |entries| ==> EntryReady(entries[i])
    }

    function InstallAll(seals: seq<StateSeal>): ProtocolState {
      if seals == [] then this else InstallAll(seals[..|seals| - 1]).Install(seals[|seals| - 1])
    }

    ghost function ApplyBundle(bundle: BundleClosure, entries: seq<Entry>): Outcome<seq<StateSeal>> {
      if !BundleReady(bundle, entries) then Outcome(this, Err(ClosureInvalid))
      else Outcome(InstallAll(NextSeals(entries)), Ok(NextSeals(entries)))
    }

    // ----- Observed outcomes

    /** The test the search for a successor seal makes on one known seal. */
    predicate LooksLikeSuccessor(c: Capsule, seal: StateSeal) {
      && seal.resourceId in currentSeals
      && seal.version == (if c.body.predecessorId in knownSeals then knownSeals[c.body.predecessorId] else seal).version + 1
      && seal.stateRoot == c.body.successorRoot
      && seal.capabilityHash == HashOf(c.Id())
    }

    predicate HasSuccessor(c: Capsule) { exists id :: id in knownSeals && LooksLikeSuccessor(c, knownSeals[id]) }

    predicate InConflict(c: Capsule) { exists id :: id in conflictEvidence && c.Id() in conflictEvidence[id].sides }

    /** The status the node observes; None before any terminal artifact is seen. */
    function ObservedStatus(c: Capsule): Option<EctcStatus> {
      if c.Id() in closures && HasSuccessor(c) then Some(Closed)
      else if InConflict(c) then Some(Conflict)
      else if c.Id() in abandons then Some(Abandoned)
      else None
    }

    /** Which outcome transition_outcome may return; the order of the dicts it searches is left open. */
    predicate Observes(c: Capsule, o: Option<TransitionOutcome>) {
      match ObservedStatus(c)
      case None => o == None
      case Some(status) =>
        && o.Some? && o.value.capsuleId == c.Id() && o.value.predecessorId == c.body.predecessorId
        && o.value.status == status
        && match status
           case Closed =>
             && o.value.evidenceIds == [closures[c.Id()].proofId]
             && o.value.conflictingCapsuleIds == []
             && exists id :: id in knownSeals && LooksLikeSuccessor(c, knownSeals[id])
                             && o.value.successorSealId == Some(knownSeals[id].Id())
           case Conflict =>
             && o.value.successorSealId == None
             && exists id :: id in conflictEvidence && c.Id() in conflictEvidence[id].sides
                             && o.value.evidenceIds == [conflictEvidence[id].Id()]
                             && |o.value.conflictingCapsuleIds| == 1
                             && conflictEvidence[id].sides.Keys == {c.Id(), o.value.conflictingCapsuleIds[0]}
           case Abandoned =>
             && o.value.evidenceIds == [abandons[c.Id()].proofId]
             && o.value.successorSealId == None && o.value.conflictingCapsuleIds == []
    }
  }

  function ProofIds(entries: seq<Entry>): seq<Digest> {
    seq(|entries|, i requires 0 <= i < |entries| => entries[i].1.proofId)
  }

  function NextSeals(entries: seq<Entry>): seq<StateSeal>
    requires forall i :: 0 <= i < |entries| ==> entries[i].0.body.predecessorId.SealDigest?
  {
    seq(|entries|, i requires 0 <= i < |entries| => Successor(entries[i].0.body.predecessorId.seal, entries[i].0.body))
  }
}
