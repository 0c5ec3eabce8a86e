/**
 What every operation of one node keeps: seal chains without forks, tables filed under their own identifiers, and
 locks and conflicts that point at stored capsules.
 */
module SealChain {
  import opened Results
  import opened Model
  import opened Certificates
  import opened Protocol

  /** The seal was put after a known predecessor by the capsule its capability hash names. */
  predicate Grown(known: map<Digest, StateSeal>, s: StateSeal) {
    && s.capabilityHash.HashOf? && s.capabilityHash.inner.CapsuleDigest?
    && var body := s.capabilityHash.inner.body;
    && body.predecessorId in known
    && s == Successor(known[body.predecessorId], body)
  }

  ghost predicate FiledSeals(known: map<Digest, StateSeal>) {
    forall id :: id in known ==> known[id].Id() == id
  }

  ghost predicate CurrentKnown(current: map<string, StateSeal>, known: map<Digest, StateSeal>) {
    forall r :: r in current ==> current[r].resourceId == r && current[r].Id() in known
  }

  ghost predicate CurrentIsLast(current: map<string, StateSeal>, known: map<Digest, StateSeal>) {
    forall id :: id in known ==>
      known[id].resourceId in current && 0 <= known[id].version <= current[known[id].resourceId].version
  }

  predicate SamePlace(s: StateSeal, t: StateSeal) { s.resourceId == t.resourceId && s.version == t.version }

  ghost predicate OneSealPerVersion(known: map<Digest, StateSeal>) {
    forall a, b :: a in known && b in known && SamePlace(known[a], known[b]) ==> known[a] == known[b]
  }

  ghost predicate AllGrown(known: map<Digest, StateSeal>) {
    forall id :: id in known && known[id].version > 0 ==> Grown(known, known[id])
  }

  /** Known seals lead back to genesis by their predecessors, and none is later than its resource's current seal. */
  ghost predicate Linked(current: map<string, StateSeal>, known: map<Digest, StateSeal>) {
    && FiledSeals(known)
    && CurrentKnown(current, known)
    && CurrentIsLast(current, known)
    && AllGrown(known)
  }

  /** Each resource's known seals form one chain that ends in its current seal. */
  ghost predicate Chained(current: map<string, StateSeal>, known: map<Digest, StateSeal>) {
    Linked(current, known) && OneSealPerVersion(known)
  }

  ghost predicate KeepsPlaces(known: map<Digest, StateSeal>, known': map<Digest, StateSeal>) {
    OneSealPerVersion(known) ==> OneSealPerVersion(known')
  }

  /** The seal starts a new resource, or follows its current seal. */
  predicate Next(current: map<string, StateSeal>, known: map<Digest, StateSeal>, seal: StateSeal) {
    && (if seal.resourceId in current then seal.version == current[seal.resourceId].version + 1 else seal.version == 0)
    && (seal.version > 0 ==> Grown(known, seal))
  }

  lemma NextIsNew(current: map<string, StateSeal>, known: map<Digest, StateSeal>, seal: StateSeal)
    requires Linked(current, known) && Next(current, known, seal)
    ensures seal.Id() !in known
    ensures forall id :: id in known ==> !SamePlace(known[id], seal)
    ensures 0 <= seal.version
  {
    hide Grown;
    forall id | id in known ensures !SamePlace(known[id], seal) {}
    if seal.resourceId in current { assert current[seal.resourceId].Id() in known; }
  }

  lemma InstallKeepsLast(current: map<string, StateSeal>, known: map<Digest, StateSeal>, seal: StateSeal)
    requires Linked(current, known) && Next(current, known, seal)
    ensures CurrentIsLast(current[seal.resourceId := seal], known[seal.Id() := seal])
    ensures CurrentKnown(current[seal.resourceId := seal], known[seal.Id() := seal])
  {
    hide Grown;
    NextIsNew(current, known, seal);
  }

  lemma InstallKeepsPlaces(current: map<string, StateSeal>, known: map<Digest, StateSeal>, seal: StateSeal)
    requires Linked(current, known) && Next(current, known, seal)
    ensures KeepsPlaces(known, known[seal.Id() := seal])
  {
    NextIsNew(current, known, seal);
    hide Grown, Next;
  }

  lemma GrownStays(known: map<Digest, StateSeal>, seal: StateSeal, s: StateSeal)
    requires Grown(known, s) && seal.Id() !in known
    ensures Grown(known[seal.Id() := seal], s)
  {}

  lemma InstallKeepsGrown(known: map<Digest, StateSeal>, seal: StateSeal)
    requires AllGrown(known) && seal.Id() !in known
    requires seal.version > 0 ==> Grown(known, seal)
    ensures AllGrown(known[seal.Id() := seal])
  {
    var known' := known[seal.Id() := seal];
    forall id | id in known' && known'[id].version > 0 ensures Grown(known', known'[id]) {
      GrownStays(known, seal, known'[id]);
    }
  }

  /** Installing a genesis seal, or the successor of a current seal, keeps the chains. */
  lemma InstallKeepsChain(current: map<string, StateSeal>, known: map<Digest, StateSeal>, seal: StateSeal)
    requires Linked(current, known) && Next(current, known, seal)
    ensures Linked(current[seal.resourceId := seal], known[seal.Id() := seal])
    ensures KeepsPlaces(known, known[seal.Id() := seal])
    ensures seal.Id() !in known
  {
    NextIsNew(current, known, seal);
    InstallKeepsLast(current, known, seal);
    InstallKeepsPlaces(current, known, seal);
    InstallKeepsGrown(known, seal);
    hide CurrentIsLast, OneSealPerVersion, CurrentKnown, Grown, AllGrown;
  }

  /** Every version up to that of a known seal has its own seal, reached by following predecessors. */
  lemma {:induction false} VersionsPresent(current: map<string, StateSeal>, known: map<Digest, StateSeal>,
                                           s: StateSeal, version: int)
    returns (at: StateSeal)
    requires Linked(current, known)
    requires s.Id() in known && 0 <= version <= s.version
    ensures at.Id() in known && at.resourceId == s.resourceId && at.version == version
    decreases s.version
  {
    assert known[s.Id()] == s;
    if s.version == version {
      at := s;
    } else {
      assert Grown(known, s);
      at := VersionsPresent(current, known, known[s.capabilityHash.inner.body.predecessorId], version);
    }
  }

  // ----- Tables

  ghost predicate FiledCapsules(capsules: map<Digest, Capsule>) {
    forall id :: id in capsules ==> capsules[id].Id() == id
  }

  ghost predicate FiledProofs(proofs: map<Digest, Proof>) {
    forall id :: id in proofs ==> proofs[id].capsuleId == id
  }

  /** Evidence names two different capsules that claim one predecessor. */
  predicate GoodEvidence(e: ConflictEvidence) {
    |e.sides| == 2 && forall id :: id in e.sides ==> id.CapsuleDigest? && id.body.predecessorId == e.predecessorId
  }

  ghost predicate FiledEvidence(evidence: map<Digest, ConflictEvidence>) {
    forall id :: id in evidence ==> evidence[id].Id() == id && GoodEvidence(evidence[id])
  }

  ghost predicate KeepsEvidence(evidence: map<Digest, ConflictEvidence>, evidence': map<Digest, ConflictEvidence>) {
    forall id :: id in evidence ==> id in evidence' && evidence'[id] == evidence[id]
  }

  /** What a claim for a lock may change. */
  ghost predicate OnlyLocks(p: ProtocolState, q: ProtocolState) {
    && q == p.(locks := q.locks, capsules := q.capsules, conflictEvidence := q.conflictEvidence)
    && p.capsules.Keys <= q.capsules.Keys
    && KeepsEvidence(p.conflictEvidence, q.conflictEvidence)
  }

  predicate LockPoints(lock: Lock, key: Digest, capsules: map<Digest, Capsule>) {
    && lock.capsuleId in capsules
    && capsules[lock.capsuleId].body.predecessorId == key
    && capsules[lock.capsuleId].body.attempt == lock.attempt
    && !lock.status.OtherStatus?
  }

  ghost predicate FiledLocks(locks: map<Digest, Lock>, capsules: map<Digest, Capsule>) {
    forall key :: key in locks ==> LockPoints(locks[key], key, capsules)
  }

  ghost predicate Filed(p: ProtocolState) {
    && FiledCapsules(p.capsules) && FiledLocks(p.locks, p.capsules)
    && FiledProofs(p.closures) && FiledProofs(p.abandons) && FiledEvidence(p.conflictEvidence)
  }

  lemma StoreKeepsFiled(p: ProtocolState, c: Capsule)
    requires Filed(p)
    ensures Filed(p.StoreCapsule(c))
  {
    var q := p.StoreCapsule(c);
    forall key | key in q.locks ensures LockPoints(q.locks[key], key, q.capsules) {
      assert LockPoints(p.locks[key], key, p.capsules);
    }
  }

  lemma TakeLockKeepsFiled(p: ProtocolState, c: Capsule, status: Status)
    requires Filed(p) && !status.OtherStatus?
    ensures Filed(p.TakeLock(c, status))
  {
    var q := p.TakeLock(c, status);
    forall key | key in q.locks ensures LockPoints(q.locks[key], key, q.capsules) {
      if key != c.body.predecessorId { assert LockPoints(p.locks[key], key, p.capsules); }
    }
  }

  lemma MadeEvidenceIsGood(first: Capsule, second: Capsule)
    requires first.body.predecessorId == second.body.predecessorId && first.Id() != second.Id()
    ensures MakeConflict(first, second).Ok? && GoodEvidence(MakeConflict(first, second).value)
  {
    var e := MakeConflict(first, second).value;
    assert e.sides.Keys == {first.Id(), second.Id()};
    assert |e.sides| == |e.sides.Keys|;
  }

  /** A claim for a lock keeps the tables filed, changes nothing else, and meets no missing key. */
  ghost predicate LockStep(p: ProtocolState, o: Outcome<()>) {
    Filed(o.state) && OnlyLocks(p, o.state) && o.result != Err(KeyError)
  }

  lemma EvidenceFiled(evidence: map<Digest, ConflictEvidence>, e: ConflictEvidence)
    requires FiledEvidence(evidence) && GoodEvidence(e)
    ensures FiledEvidence(evidence[e.Id() := e]) && KeepsEvidence(evidence, evidence[e.Id() := e])
  {
    hide GoodEvidence;
  }

  lemma EvidenceKept(p: ProtocolState, first: Capsule, c: Capsule)
    requires Filed(p) && MakeConflict(first, c).Ok? && GoodEvidence(MakeConflict(first, c).value)
    ensures LockStep(p, p.RaiseConflict(first, c)) && p.RaiseConflict(first, c).result.Err?
  {
    hide MakeConflict, GoodEvidence, FiledLocks, FiledProofs, FiledCapsules, FiledEvidence, KeepsEvidence;
    EvidenceFiled(p.conflictEvidence, MakeConflict(first, c).value);
  }

  lemma LockedCapsule(p: ProtocolState, key: Digest)
    requires Filed(p) && key in p.locks
    ensures p.locks[key].capsuleId in p.capsules
    ensures var first := p.capsules[p.locks[key].capsuleId];
            && first.Id() == p.locks[key].capsuleId && first.body.predecessorId == key
            && first.body.attempt == p.locks[key].attempt
  {
    hide FiledProofs, FiledEvidence;
    assert LockPoints(p.locks[key], key, p.capsules);
  }

  /** A claim against somebody else's lock always produces conflict evidence, never a missing key. */
  lemma ConflictRaised(p: ProtocolState, key: Digest, c: Capsule)
    requires Filed(p) && key in p.locks && c.body.predecessorId == key
    requires p.locks[key].capsuleId != c.Id() || p.locks[key].attempt != c.body.attempt
    ensures p.locks[key].capsuleId in p.capsules
    ensures var o := p.RaiseConflict(p.capsules[p.locks[key].capsuleId], c); LockStep(p, o) && o.result.Err?
  {
    hide Filed, MakeConflict, GoodEvidence, LockStep, ProtocolState.RaiseConflict;
    LockedCapsule(p, key);
    var first := p.capsules[p.locks[key].capsuleId];
    MadeEvidenceIsGood(first, c);
    EvidenceKept(p, first, c);
  }
}
