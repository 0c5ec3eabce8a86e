/**
 What evidence of a conflict does: as long as any is on record about a predecessor, nothing on it can be closed, and it
 stays on record for good.
 */
module Disputes {
  import opened Results
  import opened Model
  import opened Certificates
  import opened Protocol
  import opened SealChain
  import opened Closing
  import opened Proofs
  import opened ProtocolRuns
  import opened Outcomes

  /** A verified closure is filed exactly when no evidence names its predecessor. */
  lemma RegisterExactly(p: ProtocolState, c: Capsule, proof: Proof)
    ensures var o := p.Register(c, proof);
            && (o.result.Ok? <==>
                p.VerifyClosure(c, proof)
                && forall id :: id in p.conflictEvidence ==> p.conflictEvidence[id].predecessorId != c.body.predecessorId)
            && o.state == p.(closures := if o.result.Ok? && c.Id() !in p.closures then p.closures[c.Id() := proof]
                                         else p.closures)
  {
    hide ProtocolState.VerifyClosure;
  }

  /** This evidence about the capsule's predecessor is on record. */
  predicate OnRecord(p: ProtocolState, id: Digest, c: Capsule) {
    id in p.conflictEvidence && p.conflictEvidence[id].predecessorId == c.body.predecessorId
  }

  /** A conflict that was raised is on record. */
  lemma RaisedIsOnRecord(p: ProtocolState, first: Capsule, c: Capsule)
    requires p.RaiseConflict(first, c).result.error.ConflictDetected?
    ensures var o := p.RaiseConflict(first, c);
            && OnRecord(o.state, o.result.error.evidence.Id(), c)
            && o.result.error.evidence.sides.Keys == {first.Id(), c.Id()}
            && o.result.error.evidence.sides[first.Id()] == first.clientSignature
            && o.result.error.evidence.sides[c.Id()] == c.clientSignature
  {}

  /** A member asked to witness a capsule against somebody else's lock leaves evidence about both. */
  lemma WitnessedConflict(p: ProtocolState, m: string, c: Capsule)
    requires Filed(p) && p.Witness(m, c, Accept).result.Err? && p.Witness(m, c, Accept).result.error.ConflictDetected?
    ensures var o := p.Witness(m, c, Accept); OnRecord(o.state, o.result.error.evidence.Id(), c)
    ensures c.body.predecessorId in p.locks
    ensures p.Witness(m, c, Accept).result.error.evidence.sides.Keys
         == {p.locks[c.body.predecessorId].capsuleId, c.Id()}
  {
    hide ProtocolState.RaiseConflict, ProtocolState.TakeLock, Filed, OnRecord;
    var key := c.body.predecessorId;
    if key in p.locks {
      LockedCapsule(p, key);
      if p.RaiseConflict(p.capsules[p.locks[key].capsuleId], c).result.Err?
         && p.RaiseConflict(p.capsules[p.locks[key].capsuleId], c).result.error.ConflictDetected?
      {
        RaisedIsOnRecord(p, p.capsules[p.locks[key].capsuleId], c);
      }
    }
  }

  /** Then registering, closing with receipts at hand, and applying for the first time are refused with nothing changed. */
  lemma EvidenceRefuses(p: ProtocolState, id: Digest, c: Capsule, proof: Proof, receipts: seq<WitnessReceipt>)
    requires OnRecord(p, id, c)
    ensures p.Register(c, proof) == Outcome(p, Err(ClosureInvalid))
    ensures p.CloseWith(c, receipts) == Outcome(p, Err(ClosureInvalid))
    ensures c.Id() !in p.closures ==> p.Apply(c, proof) == Outcome(p, Err(ClosureInvalid))
  {
    RegisterExactly(p, c, proof);
    hide ProtocolState.VerifyClosure, ProtocolState.Counting, ProtocolState.RequiredWeight, LastReceipts, ReceiptWeight,
         CreateProof, ProtocolState.Advance;
  }

  /** Closing raises whatever receipts it is given, or however it collects them, and files and installs nothing. */
  lemma EvidenceRefusesClose(p: ProtocolState, id: Digest, c: Capsule, receipts: seq<WitnessReceipt>)
    requires Filed(p) && CurrentIsLast(p.currentSeals, p.knownSeals) && OnRecord(p, id, c)
    ensures var o := p.Close(c, receipts);
            && o.result.Err? && OnlyLocks(p, o.state)
            && o.state.closures == p.closures && o.state.knownSeals == p.knownSeals && o.state.currentSeals == p.currentSeals
  {
    hide Filed, CurrentIsLast, ProtocolState.Gather, ProtocolState.CloseWith, ProtocolState.ValidCapsule;
    GatherKeeps(p, c, receipts, Accept);
    OnlyLocksSelf(p);
    var gathered := p.Gather(c, receipts, Accept);
    if gathered.result.Ok? {
      EvidenceRefuses(gathered.state, id, c, Proof(c.Id(), c.Id(), 0, 0, [], [], c.Id()), gathered.result.value);
    }
  }

  // ----- Over runs

  /** With evidence about its predecessor on record, no operation closes a capsule that is not closed yet. */
  lemma StepLeavesOpen(p: ProtocolState, applied: set<Digest>, op: Operation, id: Digest, c: Capsule)
    requires Good(p, applied) && OnRecord(p, id, c) && c.Id() !in p.closures
    ensures c.Id() !in Do(p, op).closures
  {
    hide Good, Filed, CurrentIsLast, ProtocolState.Close, ProtocolState.Apply, ProtocolState.Register, OnRecord;
    FiledAndLast(p, applied);
    match op
    case Register(d, proof) => RegisterOpens(p, d, proof, id, c);
    case Close(d, receipts) => CloseOpens(p, d, receipts, id, c);
    case Apply(d, proof) => ApplyOpens(p, d, proof, id, c);
    case _ =>
      hide Do;
      OthersCloseNothing(p, op);
  }

  /** Only registering, closing and applying ever file a closure. */
  lemma OthersCloseNothing(p: ProtocolState, op: Operation)
    requires Filed(p) && CurrentIsLast(p.currentSeals, p.knownSeals) && !op.Register? && !op.Close? && !op.Apply?
    ensures Do(p, op).closures == p.closures
  {
    hide Filed, CurrentIsLast, ProtocolState.Witness, ProtocolState.AbandonCapsule, ProtocolState.ApplyBundle;
    match op
    case CreateResource(r, owner, root, secret) =>
    case StoreCapsule(d) =>
    case Witness(m, d, status) => WitnessKeeps(p, m, d, status);
    case AbandonCapsule(d, receipts) => AbandonOpens(p, d, receipts);
    case ApplyBundle(bundle, entries) => BundleExactly(p, bundle, entries);
  }

  lemma SameCapsule(c: Capsule, d: Capsule)
    requires c.Id() == d.Id()
    ensures c.body == d.body
  {}

  lemma RegisterOpens(p: ProtocolState, d: Capsule, proof: Proof, id: Digest, c: Capsule)
    requires OnRecord(p, id, c) && c.Id() !in p.closures
    ensures c.Id() !in p.Register(d, proof).state.closures
  {
    RegisterExactly(p, d, proof);
    if c.Id() == d.Id() { SameCapsule(c, d); }
    hide ProtocolState.Register, ProtocolState.VerifyClosure;
  }

  lemma CloseWithOpens(p: ProtocolState, d: Capsule, receipts: seq<WitnessReceipt>, id: Digest, c: Capsule)
    requires OnRecord(p, id, c) && c.Id() !in p.closures
    ensures c.Id() !in p.CloseWith(d, receipts).state.closures
  {
    hide OnRecord, ProtocolState.Register, ProtocolState.Disputed, ProtocolState.Counting, ProtocolState.RequiredWeight,
         LastReceipts, ReceiptWeight;
    var made := CreateProof(Accept, p.Counting(LastReceipts(receipts), Accept, d.Id()));
    hide CreateProof;
    if made.Ok? { RegisterOpens(p, d, made.value, id, c); }
  }

  lemma CloseOpens(p: ProtocolState, d: Capsule, receipts: seq<WitnessReceipt>, id: Digest, c: Capsule)
    requires Filed(p) && CurrentIsLast(p.currentSeals, p.knownSeals) && OnRecord(p, id, c) && c.Id() !in p.closures
    ensures c.Id() !in p.Close(d, receipts).state.closures
  {
    hide Filed, CurrentIsLast, ProtocolState.Gather, ProtocolState.CloseWith, ProtocolState.ValidCapsule;
    GatherKeeps(p, d, receipts, Accept);
    var gathered := p.Gather(d, receipts, Accept);
    if gathered.result.Ok? { CloseWithOpens(gathered.state, d, gathered.result.value, id, c); }
  }

  lemma AbandonOpens(p: ProtocolState, d: Capsule, receipts: seq<WitnessReceipt>)
    requires Filed(p) && CurrentIsLast(p.currentSeals, p.knownSeals)
    ensures p.AbandonCapsule(d, receipts).state.closures == p.closures
  {
    hide Filed, CurrentIsLast, ProtocolState.Gather, ProtocolState.AbandonWith;
    GatherKeeps(p, d, receipts, Status.Abandon);
    var gathered := p.Gather(d, receipts, Status.Abandon);
    if gathered.result.Ok? { AbandonWithKeeps(gathered.state, d, gathered.result.value); }
  }

  lemma ApplyOpens(p: ProtocolState, d: Capsule, proof: Proof, id: Digest, c: Capsule)
    requires OnRecord(p, id, c) && c.Id() !in p.closures
    ensures c.Id() !in p.Apply(d, proof).state.closures
  {
    hide OnRecord, ProtocolState.Register, ProtocolState.VerifyClosure, ProtocolState.Advance;
    RegisterOpens(p, d, proof, id, c);
    AdvanceCloses(p, d);
    AdvanceCloses(p.Register(d, proof).state, d);
  }

  lemma AdvanceCloses(p: ProtocolState, d: Capsule)
    ensures p.Advance(d).state.closures == p.closures
  {
    hide Successor;
  }

  /**
   However a run goes on after evidence about a predecessor came on record, that evidence stays, and a capsule on it that
   was not closed by then is never closed and never applied.
   */
  lemma {:induction false} ContestedStaysOpen(members: Members, epoch: int, ops: seq<Operation>, more: seq<Operation>,
                                              id: Digest, c: Capsule)
    requires OnRecord(Run(Start(members, epoch), ops), id, c) && c.Id() !in Run(Start(members, epoch), ops).closures
    ensures var start := Start(members, epoch);
            && OnRecord(Run(start, ops + more), id, c) && c.Id() !in Run(start, ops + more).closures
            && c.Id() !in AppliedIn(start, ops + more)
  {
    hide Do, Good, Start, OnRecord, AppliedIn, Grows;
    var start := Start(members, epoch);
    RunGrows(members, epoch, ops, more);
    EvidenceStays(Run(start, ops), Run(start, ops + more), id, c);
    if more == [] {
      assert ops + more == ops;
    } else {
      var n := |more| - 1;
      var before, all := ops + more[..n], ops + more;
      assert all[..|all| - 1] == before && all[|all| - 1] == more[n];
      ContestedStaysOpen(members, epoch, ops, more[..n], id, c);
      RunKeeps(members, epoch, before);
      StepLeavesOpen(Run(start, before), AppliedIn(start, before), more[n], id, c);
    }
    RunKeeps(members, epoch, ops + more);
    AppliedAreClosed(Run(start, ops + more), AppliedIn(start, ops + more));
  }

  lemma EvidenceStays(p: ProtocolState, q: ProtocolState, id: Digest, c: Capsule)
    requires OnRecord(p, id, c) && Grows(p, q)
    ensures OnRecord(q, id, c)
  {
    hide KeepsSeals;
  }

  lemma AppliedAreClosed(p: ProtocolState, applied: set<Digest>)
    requires Good(p, applied)
    ensures applied <= p.closures.Keys
  {
    hide Filed, Linked, Recorded;
  }
}
