/**
 Which claims for a lock go through: what a member signs, and for which capsule the lock then stands.
 */
module Claims {
  import opened Results
  import opened Model
  import opened Certificates
  import opened Protocol
  import opened SealChain
  import opened Collecting
  import opened Progress

  /** The client's own capsule, of this epoch, on a known seal of this epoch. */
  predicate Proper(p: ProtocolState, c: Capsule) {
    && c.clientSignature == ByClient(c.body.clientPublicKey, c.body)
    && c.body.epoch == p.epoch && c.body.attempt >= 0 && c.body.successorRoot != Text("")
    && c.body.predecessorId in p.knownSeals && p.knownSeals[c.body.predecessorId].epoch == p.epoch
  }

  lemma ProperIsValid(p: ProtocolState, c: Capsule)
    ensures p.ValidCapsule(c) <==> Proper(p, c)
  {}

  predicate IsFree(p: ProtocolState, key: Digest) { key !in p.locks }

  /** The lock is this capsule's, from this attempt. */
  predicate IsOwn(p: ProtocolState, c: Capsule) {
    c.body.predecessorId in p.locks
    && p.locks[c.body.predecessorId].capsuleId == c.Id() && p.locks[c.body.predecessorId].attempt == c.body.attempt
  }

  /** The lock was given up in an earlier attempt. */
  predicate IsGivenUp(p: ProtocolState, c: Capsule) {
    c.body.predecessorId in p.locks
    && p.locks[c.body.predecessorId].status == Abandon && p.locks[c.body.predecessorId].attempt < c.body.attempt
  }

  /** A member signs once the claim for the lock goes through, if its key is loaded. */
  lemma WitnessClaims(p: ProtocolState, m: string, c: Capsule, status: Status)
    requires m in p.members && Proper(p, c) && p.ValidCapsule(c) && !status.OtherStatus?
    ensures var o, claim := p.Witness(m, c, status), Claim(p, c, status);
            && o.state == claim.state
            && o.result == if claim.result.Err? then Err(claim.result.error)
                           else if p.members[m].loaded then Ok(SignedReceipt(p.members[m].publicKey, m, c.body, status))
                           else Err(Refused)
  {
    ClaimLeavesMembers(p, c, status);
    hide ProtocolState.LockForAccept, ProtocolState.LockForAbandon, Proper;
  }

  lemma RaisingLeavesRest(p: ProtocolState, first: Capsule, c: Capsule)
    ensures var o := p.RaiseConflict(first, c); o.result.Err? && o.state == p.(conflictEvidence := o.state.conflictEvidence)
  {
    hide MakeConflict;
  }

  lemma ClaimLeavesMembers(p: ProtocolState, c: Capsule, status: Status)
    requires p.ValidCapsule(c)
    ensures Claim(p, c, status).state.members == p.members
  {
    assert c.body.predecessorId in p.knownSeals;
    var key := c.body.predecessorId;
    if key in p.locks && p.locks[key].capsuleId in p.capsules { RaisingLeavesRest(p, p.capsules[p.locks[key].capsuleId], c); }
    hide ProtocolState.RaiseConflict, ProtocolState.ValidCapsule;
  }

  lemma AcceptLock(p: ProtocolState, c: Capsule)
    requires Filed(p) && OnCurrent(p, c)
    ensures var o, key := p.LockForAccept(c), c.body.predecessorId;
            if IsFree(p, key) || IsOwn(p, c) || IsGivenUp(p, c)
            then && o.result.Ok? && key in o.state.locks
                 && o.state.locks[key] == (if IsOwn(p, c) then p.locks[key] else Lock(c.Id(), c.body.attempt, Accept))
                 && o.state == p.(locks := p.locks[key := o.state.locks[key]], capsules := o.state.capsules)
            else && o.result.Err? && o.result.error.ConflictDetected?
                 && o.state == p.(conflictEvidence :=
                                    p.conflictEvidence[o.result.error.evidence.Id() := o.result.error.evidence])
  {
    var key := c.body.predecessorId;
    if key in p.locks {
      LockedCapsule(p, key);
      LockOwner(p, key);
      assert p.locks == p.locks[key := p.locks[key]];
    }
    hide Filed;
  }

  /**
   A member accepts a proper capsule on a current seal exactly when the predecessor is free, or locked by this very
   attempt, or was given up in an earlier one; the lock is then this attempt's. Against any other lock it leaves evidence.
   */
  lemma AcceptExactly(p: ProtocolState, m: string, c: Capsule)
    requires Filed(p) && m in p.members && Proper(p, c) && OnCurrent(p, c)
    ensures var o, key := p.Witness(m, c, Accept), c.body.predecessorId;
            if IsFree(p, key) || IsOwn(p, c) || IsGivenUp(p, c)
            then && (o.result.Ok? <==> p.members[m].loaded)
                 && (o.result.Ok? ==> o.result.value == SignedReceipt(p.members[m].publicKey, m, c.body, Accept))
                 && key in o.state.locks
                 && o.state.locks[key] == (if IsOwn(p, c) then p.locks[key] else Lock(c.Id(), c.body.attempt, Accept))
                 && o.state == p.(locks := p.locks[key := o.state.locks[key]], capsules := o.state.capsules)
            else && o.result.Err? && o.result.error.ConflictDetected?
                 && o.state == p.(conflictEvidence :=
                                    p.conflictEvidence[o.result.error.evidence.Id() := o.result.error.evidence])
  {
    ProperIsValid(p, c);
    WitnessClaims(p, m, c, Accept);
    AcceptLock(p, c);
    hide Filed, OnCurrent, Proper, ProtocolState.ValidCapsule, ProtocolState.Witness, ProtocolState.LockForAccept, IsOwn, IsGivenUp;
  }

  lemma LockOwner(p: ProtocolState, key: Digest)
    requires Filed(p) && key in p.locks
    ensures p.locks[key].capsuleId in p.capsules
    ensures var first := p.capsules[p.locks[key].capsuleId];
            first.Id() == p.locks[key].capsuleId && first.body.attempt == p.locks[key].attempt
  {
    assert LockPoints(p.locks[key], key, p.capsules);
  }

  lemma AbandonLock(p: ProtocolState, c: Capsule)
    requires Filed(p)
    ensures var o, key := p.LockForAbandon(c), c.body.predecessorId;
            if (IsFree(p, key) || IsOwn(p, c)) && c.Id() !in p.closures
            then o == Outcome(p.TakeLock(c, Status.Abandon), Ok(()))
            else o.result.Err? && o.state.locks == p.locks
  {
    hide Filed, ProtocolState.RaiseConflict, ProtocolState.TakeLock;
    var key := c.body.predecessorId;
    if key in p.locks {
      LockedCapsule(p, key);
      RaisingLeavesRest(p, p.capsules[p.locks[key].capsuleId], c);
    }
  }

  /** It abandons a proper capsule exactly when the lock is free or this attempt's, and the capsule is not closed. */
  lemma AbandonExactly(p: ProtocolState, m: string, c: Capsule)
    requires Filed(p) && m in p.members && Proper(p, c)
    ensures var o, key := p.Witness(m, c, Status.Abandon), c.body.predecessorId;
            if (IsFree(p, key) || IsOwn(p, c)) && c.Id() !in p.closures
            then && (o.result.Ok? <==> p.members[m].loaded)
                 && (o.result.Ok? ==> o.result.value == SignedReceipt(p.members[m].publicKey, m, c.body, Status.Abandon))
                 && o.state == p.(locks := p.locks[key := Lock(c.Id(), c.body.attempt, Status.Abandon)],
                                  capsules := p.capsules[c.Id() := c])
            else o.result.Err? && o.state.locks == p.locks
  {
    ProperIsValid(p, c);
    WitnessClaims(p, m, c, Status.Abandon);
    AbandonLock(p, c);
    hide Filed, Proper, ProtocolState.ValidCapsule, ProtocolState.Witness, ProtocolState.LockForAbandon, IsFree, IsOwn;
  }

  /** Anything that is not proper, and any capsule behind the current seal, is refused without a receipt or a lock. */
  lemma OthersRefused(p: ProtocolState, m: string, c: Capsule, status: Status)
    requires Filed(p)
    requires !Proper(p, c) || m !in p.members || status.OtherStatus?
             || (status == Accept && p.knownSeals[c.body.predecessorId].Id() == c.body.predecessorId && !OnCurrent(p, c))
    ensures var o := p.Witness(m, c, status); o.result.Err? && o.state.locks == p.locks && o.state.closures == p.closures
  {
    ProperIsValid(p, c);
    if Proper(p, c) && m in p.members && !status.OtherStatus? {
      WitnessClaims(p, m, c, Accept);
      BehindIsRefused(p, c);
    }
    hide Filed, OnCurrent, ProtocolState.ValidCapsule, Proper, ProtocolState.LockForAccept, ProtocolState.LockForAbandon;
  }

  lemma NotCurrent(p: ProtocolState, c: Capsule)
    requires c.body.predecessorId in p.knownSeals && !OnCurrent(p, c)
    requires p.knownSeals[c.body.predecessorId].Id() == c.body.predecessorId
    ensures var r := p.knownSeals[c.body.predecessorId].resourceId;
            r in p.currentSeals ==> p.currentSeals[r].Id() != c.body.predecessorId
  {}

  lemma BehindIsRefused(p: ProtocolState, c: Capsule)
    requires Filed(p) && c.body.predecessorId in p.knownSeals && !OnCurrent(p, c)
    requires p.knownSeals[c.body.predecessorId].Id() == c.body.predecessorId
    ensures var o := p.LockForAccept(c); o.result.Err? && o.state.locks == p.locks && o.state.closures == p.closures
  {
    hide Filed, OnCurrent, ProtocolState.RaiseConflict, ProtocolState.TakeLock;
    NotCurrent(p, c);
    var key := c.body.predecessorId;
    if key in p.locks {
      LockedCapsule(p, key);
      RaisingLeavesRest(p, p.capsules[p.locks[key].capsuleId], c);
    }
  }

  /** A lock that was given up lets a later attempt, of this capsule or another, be accepted. */
  lemma GivenUpIsTaken(p: ProtocolState, m: string, c: Capsule, later: Capsule)
    requires Filed(p) && m in p.members && p.members[m].loaded && Proper(p, c) && Proper(p, later) && OnCurrent(p, later)
    requires (IsFree(p, c.body.predecessorId) || IsOwn(p, c)) && c.Id() !in p.closures
    requires later.body.predecessorId == c.body.predecessorId && later.body.attempt > c.body.attempt
    ensures p.Witness(m, c, Status.Abandon).result.Ok?
    ensures p.Witness(m, c, Status.Abandon).state.Witness(m, later, Accept).result
         == Ok(SignedReceipt(p.members[m].publicKey, m, later.body, Accept))
  {
    hide ProtocolState.Witness, Filed, Proper, OnCurrent, IsGivenUp, IsOwn, IsFree;
    AbandonExactly(p, m, c);
    var q := p.TakeLock(c, Status.Abandon);
    TakenIsGivenUp(p, c, later);
    TakeLockKeepsFiled(p, c, Status.Abandon);
    AcceptExactly(q, m, later);
  }

  lemma TakenIsGivenUp(p: ProtocolState, c: Capsule, later: Capsule)
    requires Proper(p, later) && OnCurrent(p, later)
    requires later.body.predecessorId == c.body.predecessorId && later.body.attempt > c.body.attempt
    ensures var q := p.TakeLock(c, Status.Abandon); Proper(q, later) && OnCurrent(q, later) && IsGivenUp(q, later)
  {}
}
