/**
 Whole runs of one node's protocol object: the seal chain, the outcomes it reports and the absence of missing keys.
 `applied` records, beside the state, the capsules that apply or apply_bundle returned a seal for.
 */
module ProtocolRuns {
  import opened Results
  import opened Model
  import opened Names
  import opened Certificates
  import opened Protocol
  import opened SealChain
  import opened Closing

  datatype Operation =
    | CreateResource(resourceId: string, owner: string, root: Digest, secret: Digest)
    | StoreCapsule(c: Capsule)
    | Witness(memberId: string, c: Capsule, status: Status)
    | Register(c: Capsule, proof: Proof)
    | Close(c: Capsule, receipts: seq<WitnessReceipt>)
    | AbandonCapsule(c: Capsule, receipts: seq<WitnessReceipt>)
    | Apply(c: Capsule, proof: Proof)
    | ApplyBundle(bundle: BundleClosure, entries: seq<Entry>)

  ghost function Do(p: ProtocolState, op: Operation): ProtocolState {
    match op
    case CreateResource(r, owner, root, secret) => p.CreateResource(r, owner, root, secret).state
    case StoreCapsule(c) => p.StoreCapsule(c)
    case Witness(m, c, status) => p.Witness(m, c, status).state
    case Register(c, proof) => p.Register(c, proof).state
    case Close(c, receipts) => p.Close(c, receipts).state
    case AbandonCapsule(c, receipts) => p.AbandonCapsule(c, receipts).state
    case Apply(c, proof) => p.Apply(c, proof).state
    case ApplyBundle(bundle, entries) => p.ApplyBundle(bundle, entries).state
  }

  function EntryIds(entries: seq<Entry>): set<Digest> { set i | 0 <= i < |entries| :: entries[i].0.Id() }

  ghost function AppliedBy(p: ProtocolState, op: Operation): set<Digest> {
    if op.Apply? && p.Apply(op.c, op.proof).result.Ok? then {op.c.Id()}
    else if op.ApplyBundle? && p.BundleReady(op.bundle, op.entries) then EntryIds(op.entries)
    else {}
  }

  /** Nothing recorded is ever dropped or altered. */
  ghost predicate Grows(p: ProtocolState, q: ProtocolState) {
    && q.members == p.members && q.epoch == p.epoch
    && p.currentSeals.Keys <= q.currentSeals.Keys
    && KeepsSeals(p.knownSeals, q.knownSeals)
    && KeepsEvidence(p.conflictEvidence, q.conflictEvidence)
    && p.closures.Keys <= q.closures.Keys && p.abandons.Keys <= q.abandons.Keys
    && p.capsules.Keys <= q.capsules.Keys
  }

  ghost predicate KeepsSeals(known: map<Digest, StateSeal>, known': map<Digest, StateSeal>) {
    forall id :: id in known ==> id in known' && known'[id] == known[id]
  }

  // ----- The invariant

  /** Every seal past genesis was put there by an applied capsule. */
  ghost predicate Recorded(known: map<Digest, StateSeal>, applied: set<Digest>) {
    forall id :: id in known && known[id].version > 0 ==>
      known[id].capabilityHash.HashOf? && known[id].capabilityHash.inner in applied
  }

  predicate AppliedOn(known: map<Digest, StateSeal>, closures: map<Digest, Proof>, a: Digest) {
    && a.CapsuleDigest? && a in closures
    && a.body.predecessorId in known
    && Successor(known[a.body.predecessorId], a.body).Id() in known
  }

  ghost predicate AllApplied(known: map<Digest, StateSeal>, closures: map<Digest, Proof>, applied: set<Digest>) {
    forall a :: a in applied ==> AppliedOn(known, closures, a)
  }

  ghost predicate Good(p: ProtocolState, applied: set<Digest>) {
    && Filed(p)
    && Linked(p.currentSeals, p.knownSeals)
    && Recorded(p.knownSeals, applied)
    && AllApplied(p.knownSeals, p.closures, applied)
  }

  lemma AppliedStays(known: map<Digest, StateSeal>, closures: map<Digest, Proof>,
                     known': map<Digest, StateSeal>, closures': map<Digest, Proof>, applied: set<Digest>)
    requires AllApplied(known, closures, applied) && KeepsSeals(known, known') && closures.Keys <= closures'.Keys
    ensures AllApplied(known', closures', applied)
  {
    forall a | a in applied ensures AppliedOn(known', closures', a) {
      assert AppliedOn(known, closures, a);
    }
  }

  lemma RecordKept(known: map<Digest, StateSeal>, seal: StateSeal, applied: set<Digest>, applied': set<Digest>)
    requires Recorded(known, applied) && applied <= applied'
    requires seal.version > 0 ==> seal.capabilityHash.HashOf? && seal.capabilityHash.inner in applied'
    ensures Recorded(known[seal.Id() := seal], applied')
  {}

  lemma InstallGrows(p: ProtocolState, seal: StateSeal)
    requires Filed(p) && seal.Id() !in p.knownSeals
    ensures Filed(p.Install(seal)) && Grows(p, p.Install(seal))
  {
    hide FiledLocks, FiledCapsules, FiledProofs, FiledEvidence;
  }

  lemma NewResourceKeeps(p: ProtocolState, seal: StateSeal, applied: set<Digest>)
    requires Good(p, applied) && seal.resourceId !in p.currentSeals && seal.version == 0
    ensures var q := p.Install(seal); Good(q, applied) && Grows(p, q) && KeepsPlaces(p.knownSeals, q.knownSeals)
  {
    hide OneSealPerVersion, FiledSeals, CurrentKnown, CurrentIsLast, AllGrown;
    var q := p.Install(seal);
    InstallKeepsChain(p.currentSeals, p.knownSeals, seal);
    InstallGrows(p, seal);
    RecordKept(p.knownSeals, seal, applied, applied);
    AppliedStays(p.knownSeals, p.closures, q.knownSeals, q.closures, applied);
  }

  lemma CreateResourceKeeps(p: ProtocolState, r: string, owner: string, root: Digest, secret: Digest, applied: set<Digest>)
    requires Good(p, applied)
    ensures var o := p.CreateResource(r, owner, root, secret);
            && Good(o.state, applied) && Grows(p, o.state) && o.result != Err(KeyError)
            && KeepsPlaces(p.knownSeals, o.state.knownSeals)
  {
    hide Good, Grows, KeepsPlaces, ProtocolState.Install;
    if r !in p.currentSeals {
      NewResourceKeeps(p, StateSeal(r, p.epoch, 0, root, HashOf(secret), owner), applied);
    } else {
      UnchangedKeeps(p);
    }
  }

  lemma UnchangedKeeps(p: ProtocolState)
    ensures Grows(p, p) && KeepsPlaces(p.knownSeals, p.knownSeals)
  {}

  lemma TakeLockStep(p: ProtocolState, c: Capsule, status: Status)
    requires Filed(p) && !status.OtherStatus?
    ensures LockStep(p, Outcome(p.TakeLock(c, status), Ok(())))
  {
    TakeLockKeepsFiled(p, c, status);
    hide Filed;
  }

  lemma NoLockStep(p: ProtocolState, r: Result<(), Error>)
    requires Filed(p) && r != Err(KeyError)
    ensures LockStep(p, Outcome(p, r))
  {
    hide Filed;
  }

  lemma LockForAcceptKeeps(p: ProtocolState, c: Capsule)
    requires Filed(p) && c.body.predecessorId in p.knownSeals
    requires p.knownSeals[c.body.predecessorId].resourceId in p.currentSeals
    ensures LockStep(p, p.LockForAccept(c))
  {
    hide Filed, LockStep, ProtocolState.RaiseConflict, ProtocolState.TakeLock;
    var key := c.body.predecessorId;
    if key in p.locks && (p.locks[key].capsuleId != c.Id() || p.locks[key].attempt != c.body.attempt) {
      ConflictRaised(p, key, c);
    }
    TakeLockStep(p, c, Accept);
    NoLockStep(p, Ok(()));
    NoLockStep(p, Err(CapsuleInvalid));
  }

  lemma LockForAbandonKeeps(p: ProtocolState, c: Capsule)
    requires Filed(p)
    ensures LockStep(p, p.LockForAbandon(c))
  {
    hide Filed, LockStep, ProtocolState.RaiseConflict, ProtocolState.TakeLock;
    var key := c.body.predecessorId;
    if key in p.locks && (p.locks[key].capsuleId != c.Id() || p.locks[key].attempt != c.body.attempt) {
      ConflictRaised(p, key, c);
    }
    TakeLockStep(p, c, Abandon);
    NoLockStep(p, Err(Refused));
  }

  lemma ValidPredecessor(p: ProtocolState, c: Capsule)
    requires p.ValidCapsule(c) && CurrentIsLast(p.currentSeals, p.knownSeals)
    ensures c.body.predecessorId in p.knownSeals && p.knownSeals[c.body.predecessorId].resourceId in p.currentSeals
  {}

  /** A witness changes locks, capsules and evidence only, and never meets a missing key. */
  lemma WitnessKeeps(p: ProtocolState, m: string, c: Capsule, status: Status)
    requires Filed(p) && CurrentIsLast(p.currentSeals, p.knownSeals)
    ensures var o := p.Witness(m, c, status); Filed(o.state) && OnlyLocks(p, o.state) && o.result != Err(KeyError)
  {
    hide Filed, OnlyLocks, CurrentIsLast, ProtocolState.LockForAccept, ProtocolState.LockForAbandon, ProtocolState.ValidCapsule;
    NoLockStep(p, Ok(()));
    if p.ValidCapsule(c) {
      ValidPredecessor(p, c);
      LockForAcceptKeeps(p, c);
      LockForAbandonKeeps(p, c);
    }
  }

  lemma VerifiedMatches(p: ProtocolState, c: Capsule, proof: Proof)
    requires p.VerifyClosure(c, proof)
    ensures proof.capsuleId == c.Id()
  {
    hide LastReceipts, Signers, SortByWitness, ReceiptIds, ReceiptWeight, ProtocolState.RequiredWeight,
         ProtocolState.Counts;
  }

  lemma RegisterKeeps(p: ProtocolState, c: Capsule, proof: Proof)
    requires Filed(p)
    ensures var o := p.Register(c, proof);
            && Filed(o.state) && o.state == p.(closures := o.state.closures) && o.result != Err(KeyError)
            && p.closures.Keys <= o.state.closures.Keys && (o.result.Ok? ==> c.Id() in o.state.closures)
  {
    hide ProtocolState.VerifyClosure, ProtocolState.Disputed, FiledLocks, FiledCapsules, FiledEvidence, FiledProofs;
    if p.VerifyClosure(c, proof) {
      VerifiedMatches(p, c, proof);
      ProofFiled(p.closures, c.Id(), proof);
    }
  }

  lemma ProofFiled(proofs: map<Digest, Proof>, id: Digest, proof: Proof)
    requires FiledProofs(proofs) && proof.capsuleId == id
    ensures FiledProofs(proofs[id := proof])
  {}

  lemma OnlyLocksThrough(p: ProtocolState, q: ProtocolState, r: ProtocolState)
    requires OnlyLocks(p, q) && OnlyLocks(q, r)
    ensures OnlyLocks(p, r)
  {}

  lemma OnlyLocksSelf(p: ProtocolState)
    ensures OnlyLocks(p, p)
  {}

  /** Collecting receipts changes what witnessing changes. */
  lemma {:induction false} CollectKeeps(p: ProtocolState, names: seq<string>, c: Capsule, kind: Status)
    requires Filed(p) && CurrentIsLast(p.currentSeals, p.knownSeals)
    ensures var o := p.Collect(names, c, kind); Filed(o.state) && OnlyLocks(p, o.state) && o.result != Err(KeyError)
    decreases |names|
  {
    hide Filed, CurrentIsLast, ProtocolState.Witness, ProtocolState.VerifyReceipt;
    OnlyLocksSelf(p);
    if names != [] {
      CollectKeeps(p, names[..|names| - 1], c, kind);
      var before := p.Collect(names[..|names| - 1], c, kind);
      if before.result.Ok? {
        WitnessKeeps(before.state, names[|names| - 1], c, kind);
        OnlyLocksThrough(p, before.state, before.state.Witness(names[|names| - 1], c, kind).state);
        hide OnlyLocks;
      }
    }
  }

  lemma GatherKeeps(p: ProtocolState, c: Capsule, receipts: seq<WitnessReceipt>, kind: Status)
    requires Filed(p) && CurrentIsLast(p.currentSeals, p.knownSeals)
    ensures var o := p.Gather(c, receipts, kind); Filed(o.state) && OnlyLocks(p, o.state) && o.result != Err(KeyError)
  {
    hide Filed, CurrentIsLast, SortedNames, ProtocolState.Collect;
    CollectKeeps(p, SortedNames(p.members.Keys), c, kind);
    OnlyLocksSelf(p);
    hide OnlyLocks;
  }

  lemma CloseWithKeeps(p: ProtocolState, c: Capsule, receipts: seq<WitnessReceipt>)
    requires Filed(p)
    ensures var o := p.CloseWith(c, receipts);
            && Filed(o.state) && o.state == p.(closures := o.state.closures) && o.result != Err(KeyError)
            && p.closures.Keys <= o.state.closures.Keys
  {
    hide Filed, ProtocolState.Register, ProtocolState.Disputed, ProtocolState.Counting,
         ProtocolState.RequiredWeight, ReceiptWeight, LastReceipts, SortByWitness;
    var made := CreateProof(Accept, p.Counting(LastReceipts(receipts), Accept, c.Id()));
    assert made != Err(KeyError);
    hide CreateProof;
    if made.Ok? { RegisterKeeps(p, c, made.value); }
  }

  lemma AbandonWithKeeps(p: ProtocolState, c: Capsule, receipts: seq<WitnessReceipt>)
    requires Filed(p)
    ensures var o := p.AbandonWith(c, receipts);
            && Filed(o.state) && o.state == p.(abandons := o.state.abandons) && o.result != Err(KeyError)
            && p.abandons.Keys <= o.state.abandons.Keys
  {
    hide ProtocolState.Counting, ProtocolState.RequiredWeight, ReceiptWeight, LastReceipts, SortByWitness,
         FiledLocks, FiledCapsules, FiledEvidence;
    AbandonWithExactly(p, c, receipts);
  }

  /** The successor of a current seal is a next seal. */
  lemma SuccessorIsNext(current: map<string, StateSeal>, known: map<Digest, StateSeal>, body: CapsuleBody)
    requires Linked(current, known) && body.predecessorId in known
    requires var s := known[body.predecessorId];
             s.resourceId in current && current[s.resourceId].Id() == body.predecessorId
    ensures current[known[body.predecessorId].resourceId] == known[body.predecessorId]
    ensures Next(current, known, Successor(known[body.predecessorId], body))
  {
    hide CurrentKnown, CurrentIsLast, AllGrown;
    FiledSeal(known, body.predecessorId);
    hide FiledSeals;
  }

  lemma FiledSeal(known: map<Digest, StateSeal>, id: Digest)
    requires FiledSeals(known) && id in known
    ensures known[id].Id() == id
  {}

  lemma NewlyApplied(known: map<Digest, StateSeal>, closures: map<Digest, Proof>, body: CapsuleBody, applied: set<Digest>)
    requires AllApplied(known, closures, applied) && body.Id() in closures && body.predecessorId in known
    requires Successor(known[body.predecessorId], body).Id() !in known
    ensures var seal := Successor(known[body.predecessorId], body);
            AllApplied(known[seal.Id() := seal], closures, applied + {body.Id()})
  {
    var seal := Successor(known[body.predecessorId], body);
    var known' := known[seal.Id() := seal];
    AppliedStays(known, closures, known', closures, applied);
    assert AppliedOn(known', closures, body.Id());
    hide AppliedOn;
  }

  /** Installing the successor of the current seal keeps everything and records the capsule. */
  lemma SuccessorKeeps(p: ProtocolState, body: CapsuleBody, applied: set<Digest>)
    requires Good(p, applied) && body.Id() in p.closures
    requires body.predecessorId in p.knownSeals
    requires var s := p.knownSeals[body.predecessorId];
             s.resourceId in p.currentSeals && p.currentSeals[s.resourceId].Id() == body.predecessorId
    ensures var q := p.Install(Successor(p.knownSeals[body.predecessorId], body));
            Good(q, applied + {body.Id()}) && Grows(p, q) && KeepsPlaces(p.knownSeals, q.knownSeals)
  {
    hide Linked, Filed, Recorded, AllApplied, Next, Grows, KeepsPlaces;
    var seal := Successor(p.knownSeals[body.predecessorId], body);
    SuccessorIsNext(p.currentSeals, p.knownSeals, body);
    InstallKeepsChain(p.currentSeals, p.knownSeals, seal);
    InstallGrows(p, seal);
    RecordKept(p.knownSeals, seal, applied, applied + {body.Id()});
    NewlyApplied(p.knownSeals, p.closures, body, applied);
  }

  /** Operations that leave the seals alone. */
  lemma SameSealsKeep(p: ProtocolState, q: ProtocolState, applied: set<Digest>)
    requires Good(p, applied) && Filed(q)
    requires q.members == p.members && q.epoch == p.epoch
    requires q.currentSeals == p.currentSeals && q.knownSeals == p.knownSeals
    requires p.closures.Keys <= q.closures.Keys && p.abandons.Keys <= q.abandons.Keys
    requires p.capsules.Keys <= q.capsules.Keys && KeepsEvidence(p.conflictEvidence, q.conflictEvidence)
    ensures Good(q, applied) && Grows(p, q)
  {
    hide Filed, Linked, Recorded;
    assert KeepsSeals(p.knownSeals, q.knownSeals);
    AppliedStays(p.knownSeals, p.closures, q.knownSeals, q.closures, applied);
  }

  lemma EvidenceReflexive(evidence: map<Digest, ConflictEvidence>)
    ensures KeepsEvidence(evidence, evidence)
  {}

  /** When apply finds the resource already past the predecessor, only the capsule's own successor satisfies it. */
  lemma HeadWasApplied(p: ProtocolState, c: Capsule, applied: set<Digest>)
    requires Good(p, applied) && c.body.predecessorId in p.knownSeals
    requires p.knownSeals[c.body.predecessorId].resourceId in p.currentSeals
    requires var predecessor := p.knownSeals[c.body.predecessorId];
             var current := p.currentSeals[predecessor.resourceId];
             current.version == predecessor.version + 1 && current.capabilityHash == HashOf(c.Id())
    ensures c.Id() in applied
    ensures p.currentSeals[p.knownSeals[c.body.predecessorId].resourceId]
         == Successor(p.knownSeals[c.body.predecessorId], c.body)
  {
    var predecessor := p.knownSeals[c.body.predecessorId];
    var current := p.currentSeals[predecessor.resourceId];
    assert p.knownSeals[current.Id()] == current;
    assert Grown(p.knownSeals, current);
    hide OneSealPerVersion, Filed, AllApplied;
  }

  lemma AdvanceNew(p: ProtocolState, c: Capsule, applied: set<Digest>)
    requires Good(p, applied) && c.Id() in p.closures && c.body.predecessorId in p.knownSeals
    requires p.knownSeals[c.body.predecessorId].resourceId in p.currentSeals
    requires p.currentSeals[p.knownSeals[c.body.predecessorId].resourceId].Id() == c.body.predecessorId
    ensures var seal := Successor(p.knownSeals[c.body.predecessorId], c.body);
            && p.Advance(c) == Outcome(p.Install(seal), Ok(seal))
            && Grows(p, p.Install(seal)) && Good(p.Install(seal), applied + {c.Id()})
            && KeepsPlaces(p.knownSeals, p.Install(seal).knownSeals)
  {
    hide Good, Grows, Successor, ProtocolState.Install, KeepsPlaces;
    SuccessorKeeps(p, c.body, applied);
    CurrentIsPredecessor(p, c.body, applied);
  }

  lemma GrowsSelf(p: ProtocolState)
    ensures Grows(p, p)
  {}

  lemma AdvanceKeeps(p: ProtocolState, c: Capsule, applied: set<Digest>)
    requires Good(p, applied) && c.Id() in p.closures
    ensures var o := p.Advance(c);
            && Grows(p, o.state) && o.result != Err(KeyError) && KeepsPlaces(p.knownSeals, o.state.knownSeals)
            && if o.result.Ok?
               then Good(o.state, applied + {c.Id()})
                    && c.body.predecessorId in p.knownSeals
                    && o.result.value == Successor(p.knownSeals[c.body.predecessorId], c.body)
               else o.state == p
  {
    hide Good, Grows, Successor, OneSealPerVersion;
    GrowsSelf(p);
    var key := c.body.predecessorId;
    if key in p.knownSeals && p.knownSeals[key].resourceId in p.currentSeals {
      if p.currentSeals[p.knownSeals[key].resourceId].Id() == key {
        AdvanceNew(p, c, applied);
      } else if p.Advance(c).result.Ok? {
        HeadWasApplied(p, c, applied);
        assert applied + {c.Id()} == applied;
      }
    }
  }

  lemma CurrentIsPredecessor(p: ProtocolState, body: CapsuleBody, applied: set<Digest>)
    requires Good(p, applied) && body.predecessorId in p.knownSeals
    requires p.knownSeals[body.predecessorId].resourceId in p.currentSeals
    requires p.currentSeals[p.knownSeals[body.predecessorId].resourceId].Id() == body.predecessorId
    ensures p.currentSeals[p.knownSeals[body.predecessorId].resourceId] == p.knownSeals[body.predecessorId]
  {
    hide Filed, Recorded, AllApplied, AllGrown, OneSealPerVersion, CurrentIsLast, CurrentKnown;
  }

  /** What advancing leaves: the capsule recorded and its successor returned, or nothing changed. */
  ghost predicate Advanced(p: ProtocolState, c: Capsule, applied: set<Digest>, o: Outcome<StateSeal>) {
    && Grows(p, o.state) && o.result != Err(KeyError) && KeepsPlaces(p.knownSeals, o.state.knownSeals)
    && if o.result.Ok?
       then Good(o.state, applied + {c.Id()})
            && c.body.predecessorId in p.knownSeals
            && o.result.value == Successor(p.knownSeals[c.body.predecessorId], c.body)
       else Good(o.state, applied)
  }

  lemma RegisteredKeeps(p: ProtocolState, c: Capsule, proof: Proof, applied: set<Digest>)
    requires Good(p, applied)
    ensures var o := p.Register(c, proof);
            && Good(o.state, applied) && Grows(p, o.state) && o.result != Err(KeyError)
            && o.state.knownSeals == p.knownSeals && (o.result.Ok? ==> c.Id() in o.state.closures)
  {
    hide ProtocolState.Register, Filed;
    RegisterKeeps(p, c, proof);
    EvidenceReflexive(p.conflictEvidence);
    SameSealsKeep(p, p.Register(c, proof).state, applied);
    hide Good, Grows;
  }

  lemma AdvancedAfter(p: ProtocolState, q: ProtocolState, c: Capsule, applied: set<Digest>)
    requires Good(q, applied) && Grows(p, q) && c.Id() in q.closures && q.knownSeals == p.knownSeals
    ensures Advanced(p, c, applied, q.Advance(c))
  {
    hide Good, Successor, ProtocolState.Advance, KeepsPlaces;
    AdvanceKeeps(q, c, applied);
    GrowsThrough(p, q, q.Advance(c).state);
    hide Grows;
  }

  lemma ApplyKeeps(p: ProtocolState, c: Capsule, proof: Proof, applied: set<Digest>)
    requires Good(p, applied)
    ensures Advanced(p, c, applied, p.Apply(c, proof))
  {
    GrowsSelf(p);
    hide Good, Grows, Successor, ProtocolState.Advance, ProtocolState.VerifyClosure, ProtocolState.Register, OneSealPerVersion;
    RegisteredKeeps(p, c, proof, applied);
    var q := if c.Id() in p.closures then p else p.Register(c, proof).state;
    if c.Id() in q.closures { AdvancedAfter(p, q, c, applied); }
  }

  lemma GrowsThrough(p: ProtocolState, q: ProtocolState, r: ProtocolState)
    requires Grows(p, q) && Grows(q, r)
    ensures Grows(p, r)
  {}

  // ----- Successors of a seal that has one

  /** The seal is current, or its resource is one version past it. */
  predicate Near(current: map<string, StateSeal>, s: StateSeal) {
    && s.resourceId in current
    && (current[s.resourceId] == s || current[s.resourceId].version == s.version + 1)
  }

  lemma SecondGrown(known: map<Digest, StateSeal>, seal: StateSeal, s: StateSeal)
    requires Grown(known, s) && FiledSeals(known)
    ensures Grown(known[seal.Id() := seal], s)
  {}

  lemma SecondKeepsGrown(known: map<Digest, StateSeal>, body: CapsuleBody)
    requires FiledSeals(known) && AllGrown(known) && body.predecessorId in known
    ensures var seal := Successor(known[body.predecessorId], body); AllGrown(known[seal.Id() := seal])
  {
    var seal := Successor(known[body.predecessorId], body);
    var known' := known[seal.Id() := seal];
    NewGrown(known, body);
    hide Grown, Successor;
    forall id | id in known' && known'[id].version > 0 ensures Grown(known', known'[id]) {
      if known'[id] != seal { SecondGrown(known, seal, known[id]); }
    }
  }

  lemma NewGrown(known: map<Digest, StateSeal>, body: CapsuleBody)
    requires FiledSeals(known) && body.predecessorId in known
    ensures var seal := Successor(known[body.predecessorId], body); Grown(known[seal.Id() := seal], seal)
  {}

  lemma SecondFiled(known: map<Digest, StateSeal>, seal: StateSeal)
    requires FiledSeals(known)
    ensures FiledSeals(known[seal.Id() := seal])
  {}

  lemma SecondKeepsLinked(current: map<string, StateSeal>, known: map<Digest, StateSeal>, body: CapsuleBody)
    requires Linked(current, known) && body.predecessorId in known && Near(current, known[body.predecessorId])
    ensures var seal := Successor(known[body.predecessorId], body);
            Linked(current[seal.resourceId := seal], known[seal.Id() := seal])
  {
    var seal := Successor(known[body.predecessorId], body);
    assert known[body.predecessorId].version >= 0;
    hide CurrentKnown, CurrentIsLast, AllGrown, FiledSeals;
    SecondKeepsLast(current, known, seal);
    SecondKeepsGrown(known, body);
    SecondFiled(known, seal);
  }

  lemma SecondKeepsLast(current: map<string, StateSeal>, known: map<Digest, StateSeal>, seal: StateSeal)
    requires CurrentKnown(current, known) && CurrentIsLast(current, known)
    requires seal.resourceId in current && 0 <= current[seal.resourceId].version <= seal.version
    ensures CurrentKnown(current[seal.resourceId := seal], known[seal.Id() := seal])
    ensures CurrentIsLast(current[seal.resourceId := seal], known[seal.Id() := seal])
  {}

  lemma SecondGrows(p: ProtocolState, seal: StateSeal)
    requires Filed(p) && FiledSeals(p.knownSeals) && seal.resourceId in p.currentSeals
    ensures Filed(p.Install(seal)) && Grows(p, p.Install(seal))
  {
    hide FiledLocks, FiledCapsules, FiledProofs, FiledEvidence;
    EvidenceReflexive(p.conflictEvidence);
  }

  /** Putting one more successor on a seal keeps everything but the one chain, and records the capsule. */
  lemma SecondKeeps(p: ProtocolState, body: CapsuleBody, applied: set<Digest>)
    requires Good(p, applied) && body.Id() in p.closures
    requires body.predecessorId in p.knownSeals && Near(p.currentSeals, p.knownSeals[body.predecessorId])
    ensures var q := p.Install(Successor(p.knownSeals[body.predecessorId], body));
            Good(q, applied + {body.Id()}) && Grows(p, q)
  {
    hide Filed, Recorded, AllApplied, Grows, CurrentKnown, AllGrown;
    var seal := Successor(p.knownSeals[body.predecessorId], body);
    assert p.knownSeals[body.predecessorId].version >= 0;
    hide CurrentIsLast;
    SecondKeepsLinked(p.currentSeals, p.knownSeals, body);
    SecondGrows(p, seal);
    RecordKept(p.knownSeals, seal, applied, applied + {body.Id()});
    SecondApplied(p.knownSeals, p.closures, body, applied);
    hide Linked;
  }

  lemma SecondApplied(known: map<Digest, StateSeal>, closures: map<Digest, Proof>, body: CapsuleBody, applied: set<Digest>)
    requires AllApplied(known, closures, applied) && body.Id() in closures && body.predecessorId in known && FiledSeals(known)
    ensures var seal := Successor(known[body.predecessorId], body);
            AllApplied(known[seal.Id() := seal], closures, applied + {body.Id()})
  {
    var seal := Successor(known[body.predecessorId], body);
    var known' := known[seal.Id() := seal];
    assert KeepsSeals(known, known');
    AppliedStays(known, closures, known', closures, applied);
    assert AppliedOn(known', closures, body.Id());
    hide AppliedOn;
  }
}
