/**
 Runs of a committee of honest nodes against Byzantine members that send anything they like, short of receipts in an
 honest member's name: closures are exclusive per predecessor and attempt, and, when honest nodes only accept, all
 honest nodes build the same seal chains.
 */
module Replicas {
  import opened Results
  import opened Model
  import opened Quorums
  import opened Certificates
  import opened Protocol
  import opened SealChain
  import opened ProtocolRuns
  import opened Outcomes
  import opened Nodes

  /** The committee, its Byzantine part, and the seals every node starts from. */
  datatype Config = Config(
    members: Members,
    epoch: int,
    byzantine: set<string>,
    heads: map<string, StateSeal>,
    known: map<Digest, StateSeal>)

  /** The honest nodes, and every receipt any of them ever signed. */
  datatype System = System(nodes: map<string, Node>, signed: set<WitnessReceipt>)

  // ----- Certificates

  /** Nodes differ in the private keys they hold, not in keys and weights. */
  ghost predicate SameCommittee(a: Members, b: Members) {
    a.Keys == b.Keys && forall m :: m in a ==> a[m].publicKey == b[m].publicKey && a[m].weight == b[m].weight
  }

  lemma SameWeights(a: Members, b: Members)
    requires SameCommittee(a, b)
    ensures Weights(a) == Weights(b)
  {}

  /** Receipts in an honest member's name come from that member. */
  predicate Genuine(cfg: Config, signed: set<WitnessReceipt>, r: WitnessReceipt) {
    (r.Witness() in cfg.members && r.Witness() !in cfg.byzantine
     && r.signature == ByWitness(cfg.members[r.Witness()].publicKey, r.statement)) ==> r in signed
  }

  ghost predicate AllGenuine(cfg: Config, signed: set<WitnessReceipt>, rs: seq<WitnessReceipt>) {
    forall i :: 0 <= i < |rs| ==> Genuine(cfg, signed, rs[i])
  }

  predicate Backs(cfg: Config, signed: set<WitnessReceipt>, m: string, body: CapsuleBody)
    requires m in cfg.members
  {
    m in cfg.byzantine || SignedReceipt(cfg.members[m].publicKey, m, body, Accept) in signed
  }

  /** The members that can be made to stand behind a capsule. */
  function Backers(cfg: Config, signed: set<WitnessReceipt>, body: CapsuleBody): set<string> {
    set m | m in cfg.members && Backs(cfg, signed, m, body)
  }

  ghost predicate Certified(cfg: Config, signed: set<WitnessReceipt>, body: CapsuleBody) {
    Weight(Weights(cfg.members), Backers(cfg, signed, body)) >= Threshold(Weights(cfg.members))
  }

  lemma CertifiedStays(cfg: Config, signed: set<WitnessReceipt>, more: set<WitnessReceipt>, body: CapsuleBody)
    requires Certified(cfg, signed, body) && signed <= more
    ensures Certified(cfg, more, body)
  {
    WeightMonotone(Weights(cfg.members), Backers(cfg, signed, body), Backers(cfg, more, body));
    hide Weight;
  }

  /** A counted genuine receipt is the one its witness would have signed, or Byzantine. */
  lemma CountedBacks(cfg: Config, signed: set<WitnessReceipt>, p: ProtocolState, c: Capsule, r: WitnessReceipt)
    requires SameCommittee(p.members, cfg.members) && FiledCapsules(p.capsules)
    requires p.Counts(r, Accept, c.Id()) && Genuine(cfg, signed, r)
    ensures r.Witness() in Backers(cfg, signed, c.body)
  {
    assert p.capsules[c.Id()].body == c.body;
    assert r == SignedReceipt(cfg.members[r.Witness()].publicKey, r.Witness(), c.body, Accept);
  }

  lemma CountedBackAll(cfg: Config, signed: set<WitnessReceipt>, p: ProtocolState, c: Capsule, rs: seq<WitnessReceipt>)
    requires SameCommittee(p.members, cfg.members) && FiledCapsules(p.capsules)
    requires forall i :: 0 <= i < |rs| ==> p.Counts(rs[i], Accept, c.Id()) && Genuine(cfg, signed, rs[i])
    ensures WitnessSet(rs) <= Backers(cfg, signed, c.body)
  {
    hide SameCommittee, FiledCapsules, ProtocolState.Counts, Genuine, Backers;
    forall i | 0 <= i < |rs| ensures rs[i].Witness() in Backers(cfg, signed, c.body) {
      CountedBacks(cfg, signed, p, c, rs[i]);
    }
  }

  /** What verify_closure accepts is certified, however often a receipt is repeated. */
  lemma VerifiedIsCertified(cfg: Config, signed: set<WitnessReceipt>, p: ProtocolState, c: Capsule, proof: Proof)
    requires SameCommittee(p.members, cfg.members) && FiledCapsules(p.capsules)
    requires p.VerifyClosure(c, proof) && AllGenuine(cfg, signed, proof.receipts)
    ensures Certified(cfg, signed, c.body)
  {
    var unique := LastReceipts(proof.receipts);
    LastReceiptsSpec(proof.receipts);
    hide LastReceipts, SortByWitness, Signers, ReceiptIds, ReceiptWeight, Weight, WitnessSet, ProtocolState.Counts,
         Genuine, Backers, FiledCapsules, Distinct;
    forall i | 0 <= i < |unique| ensures Genuine(cfg, signed, unique[i]) {
      assert unique[i] in proof.receipts;
    }
    CountedBackAll(cfg, signed, p, c, unique);
    SameWeights(p.members, cfg.members);
    hide SameCommittee;
    ReceiptWeightIsWeight(p.members, unique);
    WeightMonotone(Weights(cfg.members), WitnessSet(unique), Backers(cfg, signed, c.body));
  }

  // ----- Locks

  predicate Follows(a: Lock, b: Lock) {
    a.attempt < b.attempt || (a.attempt == b.attempt && a.capsuleId == b.capsuleId)
  }

  /** A lock's attempt never decreases, and its capsule changes only together with a higher attempt. */
  ghost predicate Advances(locks: map<Digest, Lock>, locks': map<Digest, Lock>) {
    forall key :: key in locks ==> key in locks' && Follows(locks[key], locks'[key])
  }

  /** The receipt speaks for the lock's own capsule and attempt, or for an earlier attempt. */
  predicate Behind(r: WitnessReceipt, locks: map<Digest, Lock>) {
    && r.statement.predecessorId in locks
    && Follows(Lock(r.statement.capsuleId, r.statement.attempt, r.statement.status), locks[r.statement.predecessorId])
  }

  predicate At(r: WitnessReceipt, locks: map<Digest, Lock>) {
    && r.statement.predecessorId in locks
    && r.statement.capsuleId == locks[r.statement.predecessorId].capsuleId
    && r.statement.attempt == locks[r.statement.predecessorId].attempt
  }

  lemma BehindStays(r: WitnessReceipt, locks: map<Digest, Lock>, locks': map<Digest, Lock>)
    requires Behind(r, locks) && Advances(locks, locks')
    ensures Behind(r, locks')
  {
    assert Follows(locks[r.statement.predecessorId], locks'[r.statement.predecessorId]);
  }

  lemma ConflictKeepsLocks(p: ProtocolState, first: Capsule, c: Capsule)
    ensures var o := p.RaiseConflict(first, c); o.state.locks == p.locks && o.result.Err?
  {
    hide MakeConflict;
  }

  lemma AcceptAdvances(p: ProtocolState, c: Capsule)
    requires c.body.predecessorId in p.knownSeals
    ensures var o := p.LockForAccept(c);
            && Advances(p.locks, o.state.locks)
            && (o.result.Ok? ==> c.body.predecessorId in o.state.locks
                                 && o.state.locks[c.body.predecessorId].capsuleId == c.Id()
                                 && o.state.locks[c.body.predecessorId].attempt == c.body.attempt)
  {
    hide ProtocolState.RaiseConflict;
    var key := c.body.predecessorId;
    if key in p.locks && p.locks[key].capsuleId in p.capsules {
      ConflictKeepsLocks(p, p.capsules[p.locks[key].capsuleId], c);
    }
  }

  lemma AbandonAdvances(p: ProtocolState, c: Capsule)
    ensures var o := p.LockForAbandon(c);
            && Advances(p.locks, o.state.locks)
            && (o.result.Ok? ==> c.body.predecessorId in o.state.locks
                                 && o.state.locks[c.body.predecessorId].capsuleId == c.Id()
                                 && o.state.locks[c.body.predecessorId].attempt == c.body.attempt)
  {
    hide ProtocolState.RaiseConflict;
    var key := c.body.predecessorId;
    if key in p.locks && p.locks[key].capsuleId in p.capsules {
      ConflictKeepsLocks(p, p.capsules[p.locks[key].capsuleId], c);
    }
  }

  /** Whatever a node is asked to witness, its locks only advance and it signs for the lock it then holds. */
  lemma WitnessAdvances(p: ProtocolState, m: string, c: Capsule, status: Status)
    ensures var o := p.Witness(m, c, status);
            && Advances(p.locks, o.state.locks)
            && (o.result.Ok? ==> o.result.value.Witness() == m && At(o.result.value, o.state.locks))
  {
    assert Advances(p.locks, p.locks);
    if p.ValidCapsule(c) {
      AcceptAdvances(p, c);
      AbandonAdvances(p, c);
    }
    hide Advances, ProtocolState.LockForAccept, ProtocolState.LockForAbandon;
  }

  // ----- Accepting only

  ghost predicate OnlyAccepts(locks: map<Digest, Lock>) { forall key :: key in locks ==> locks[key].status == Accept }

  ghost predicate Extends(locks: map<Digest, Lock>, locks': map<Digest, Lock>) {
    forall key :: key in locks ==> key in locks' && locks'[key] == locks[key]
  }

  lemma AcceptExtends(p: ProtocolState, m: string, c: Capsule)
    requires OnlyAccepts(p.locks)
    ensures var o := p.Witness(m, c, Accept); OnlyAccepts(o.state.locks) && Extends(p.locks, o.state.locks)
  {
    if p.ValidCapsule(c) { LockExtends(p, c); }
    hide ProtocolState.LockForAccept, ProtocolState.LockForAbandon, ProtocolState.ValidCapsule;
  }

  lemma LockExtends(p: ProtocolState, c: Capsule)
    requires OnlyAccepts(p.locks) && c.body.predecessorId in p.knownSeals
    ensures var o := p.LockForAccept(c); OnlyAccepts(o.state.locks) && Extends(p.locks, o.state.locks)
  {
    hide ProtocolState.RaiseConflict;
    var key := c.body.predecessorId;
    if key in p.locks && p.locks[key].capsuleId in p.capsules {
      ConflictKeepsLocks(p, p.capsules[p.locks[key].capsuleId], c);
    }
  }

  // ----- One node

  ghost predicate FromGenesis(genesis: map<Digest, StateSeal>, known: map<Digest, StateSeal>) {
    KeepsSeals(genesis, known) && forall id :: id in known && known[id].version == 0 ==> id in genesis
  }

  ghost predicate AllCertified(cfg: Config, signed: set<WitnessReceipt>, applied: set<Digest>) {
    forall a :: a in applied ==> a.CapsuleDigest? && Certified(cfg, signed, a.body)
  }

  ghost predicate PoolsGenuine(cfg: Config, signed: set<WitnessReceipt>, pool: map<Digest, seq<WitnessReceipt>>) {
    forall id :: id in pool ==> AllGenuine(cfg, signed, pool[id])
  }

  ghost predicate ProtocolOk(cfg: Config, signed: set<WitnessReceipt>, p: ProtocolState, applied: set<Digest>) {
    && SameCommittee(p.members, cfg.members) && p.epoch == cfg.epoch
    && Good(p, applied)
    && FromGenesis(cfg.known, p.knownSeals)
    && AllCertified(cfg, signed, applied)
  }

  ghost predicate NodeOk(cfg: Config, signed: set<WitnessReceipt>, n: Node) {
    ProtocolOk(cfg, signed, n.protocol, n.applied) && PoolsGenuine(cfg, signed, n.receiptPool)
  }

  lemma NodeStays(cfg: Config, signed: set<WitnessReceipt>, more: set<WitnessReceipt>, n: Node)
    requires NodeOk(cfg, signed, n) && signed <= more
    ensures NodeOk(cfg, more, n)
  {
    hide Certified, Good, FromGenesis, SameCommittee;
    forall a | a in n.applied ensures Certified(cfg, more, a.body) { CertifiedStays(cfg, signed, more, a.body); }
    forall id | id in n.receiptPool ensures AllGenuine(cfg, more, n.receiptPool[id]) {
      assert AllGenuine(cfg, signed, n.receiptPool[id]);
    }
  }

  lemma WitnessOk(cfg: Config, signed: set<WitnessReceipt>, p: ProtocolState, applied: set<Digest>,
                  m: string, c: Capsule, status: Status)
    requires ProtocolOk(cfg, signed, p, applied)
    ensures ProtocolOk(cfg, signed, p.Witness(m, c, status).state, applied)
  {
    hide Grows, ProtocolState.Witness, FromGenesis, SameCommittee, AllCertified, Filed, Recorded, AllApplied,
         CurrentKnown, OneSealPerVersion, AllGrown, FiledSeals, CurrentIsLast;
    WitnessKeeps(p, m, c, status);
    hide Good;
    WitnessStepKeeps(p, applied, m, c, status);
  }

  lemma StoreOk(cfg: Config, signed: set<WitnessReceipt>, p: ProtocolState, applied: set<Digest>, c: Capsule)
    requires ProtocolOk(cfg, signed, p, applied)
    ensures ProtocolOk(cfg, signed, p.StoreCapsule(c), applied)
  {
    hide Good, Grows, FromGenesis, SameCommittee, AllCertified;
    StoreKeeps(p, applied, c);
  }

  lemma GenesisStays(genesis: map<Digest, StateSeal>, known: map<Digest, StateSeal>, known': map<Digest, StateSeal>,
                     seal: StateSeal)
    requires FromGenesis(genesis, known) && KeepsSeals(known, known') && seal.version > 0
    requires known' == known || known' == known[seal.Id() := seal]
    ensures FromGenesis(genesis, known')
  {}

  lemma VersionNonNegative(p: ProtocolState, applied: set<Digest>, id: Digest)
    requires Good(p, applied) && id in p.knownSeals
    ensures p.knownSeals[id].version >= 0
  {
    hide Filed, Recorded, AllApplied, FiledSeals, CurrentKnown, OneSealPerVersion, AllGrown;
  }

  lemma AdvanceAdds(p: ProtocolState, applied: set<Digest>, c: Capsule)
    requires Good(p, applied)
    ensures var q := p.Advance(c).state;
            q.knownSeals == p.knownSeals
            || (c.body.predecessorId in p.knownSeals && p.knownSeals[c.body.predecessorId].version >= 0
                && var seal := Successor(p.knownSeals[c.body.predecessorId], c.body);
                   q.knownSeals == p.knownSeals[seal.Id() := seal])
  {
    var key := c.body.predecessorId;
    hide Good, Successor;
    if key in p.knownSeals { VersionNonNegative(p, applied, key); }
    if key in p.knownSeals && p.knownSeals[key].resourceId in p.currentSeals
       && p.currentSeals[p.knownSeals[key].resourceId].Id() == key {
      CurrentIsPredecessor(p, c.body, applied);
    }
  }

  lemma AdvanceFromGenesis(p: ProtocolState, applied: set<Digest>, c: Capsule, genesis: map<Digest, StateSeal>)
    requires Good(p, applied) && c.Id() in p.closures && FromGenesis(genesis, p.knownSeals)
    ensures FromGenesis(genesis, p.Advance(c).state.knownSeals)
  {
    hide Good, FromGenesis, ProtocolState.Advance, KeepsSeals;
    AdvanceKeeps(p, c, applied);
    AdvanceAdds(p, applied, c);
    var known' := p.Advance(c).state.knownSeals;
    if known' != p.knownSeals {
      GenesisStays(genesis, p.knownSeals, known', Successor(p.knownSeals[c.body.predecessorId], c.body));
    }
  }

  lemma RegisterLeaves(p: ProtocolState, c: Capsule, proof: Proof)
    ensures var q := p.Register(c, proof).state; q == p.(closures := q.closures)
  {
    hide ProtocolState.VerifyClosure, ProtocolState.Disputed;
  }

  lemma AdvanceLeaves(p: ProtocolState, c: Capsule)
    ensures p.Advance(c).state.locks == p.locks
  {
    hide Successor;
  }

  lemma ApplyLeaves(p: ProtocolState, c: Capsule, proof: Proof)
    ensures p.Apply(c, proof).state.locks == p.locks
  {
    hide ProtocolState.VerifyClosure, ProtocolState.Register, ProtocolState.Advance;
    RegisterLeaves(p, c, proof);
    AdvanceLeaves(p, c);
    AdvanceLeaves(p.Register(c, proof).state, c);
  }

  lemma RegisterOk(cfg: Config, signed: set<WitnessReceipt>, p: ProtocolState, applied: set<Digest>,
                   c: Capsule, proof: Proof)
    requires ProtocolOk(cfg, signed, p, applied)
    ensures ProtocolOk(cfg, signed, p.Register(c, proof).state, applied)
  {
    hide Good, FromGenesis, SameCommittee, AllCertified, ProtocolState.Register;
    RegisteredKeeps(p, c, proof, applied);
    hide KeepsSeals, KeepsEvidence;
  }

  lemma ApplyFromGenesis(p: ProtocolState, applied: set<Digest>, c: Capsule, proof: Proof, genesis: map<Digest, StateSeal>)
    requires Good(p, applied) && FromGenesis(genesis, p.knownSeals)
    ensures FromGenesis(genesis, p.Apply(c, proof).state.knownSeals)
  {
    hide Good, Grows, FromGenesis, ProtocolState.Advance, ProtocolState.VerifyClosure, ProtocolState.Register;
    RegisteredKeeps(p, c, proof, applied);
    var q := if c.Id() in p.closures then p else p.Register(c, proof).state;
    if c.Id() in q.closures { AdvanceFromGenesis(q, applied, c, genesis); }
  }

  lemma ApplyOk(cfg: Config, signed: set<WitnessReceipt>, p: ProtocolState, applied: set<Digest>,
                c: Capsule, proof: Proof)
    requires ProtocolOk(cfg, signed, p, applied) && AllGenuine(cfg, signed, proof.receipts)
    ensures var o := p.Apply(c, proof);
            ProtocolOk(cfg, signed, o.state, applied + if o.result.Ok? then {c.Id()} else {})
  {
    hide Good, FromGenesis, SameCommittee, Certified, AllGenuine, FiledCapsules, ProtocolState.Apply,
         ProtocolState.VerifyClosure, KeepsSeals, KeepsEvidence;
    var o := p.Apply(c, proof);
    FiledOf(p, applied);
    ApplyVerified(p, c, proof);
    assert applied + {} == applied;
    ApplyKeeps(p, c, proof, applied);
    ApplyFromGenesis(p, applied, c, proof, cfg.known);
    if o.result.Ok? { VerifiedIsCertified(cfg, signed, p, c, proof); }
  }

  lemma ApplyVerified(p: ProtocolState, c: Capsule, proof: Proof)
    ensures p.Apply(c, proof).result.Ok? ==> p.VerifyClosure(c, proof)
  {
    hide ProtocolState.VerifyClosure, ProtocolState.Register, ProtocolState.Advance;
  }

  lemma FiledOf(p: ProtocolState, applied: set<Digest>)
    requires Good(p, applied)
    ensures FiledCapsules(p.capsules)
  {
    hide Linked, Recorded, AllApplied, FiledCapsules;
  }

  lemma RegisterAndApplyOk(cfg: Config, signed: set<WitnessReceipt>, n: Node, c: Capsule, proof: Proof)
    requires NodeOk(cfg, signed, n) && AllGenuine(cfg, signed, proof.receipts)
    ensures NodeOk(cfg, signed, RegisterAndApply(n, c, proof))
    ensures RegisterAndApply(n, c, proof).protocol.locks == n.protocol.locks
  {
    hide ProtocolOk, PoolsGenuine, AllGenuine, ProtocolState.Register, ProtocolState.Apply;
    RegisterOk(cfg, signed, n.protocol, n.applied, c, proof);
    var q := n.protocol.Register(c, proof).state;
    ApplyOk(cfg, signed, q, n.applied, c, proof);
    RegisterLeaves(n.protocol, c, proof);
    ApplyLeaves(q, c, proof);
  }

  // ----- Handlers

  /** The node signed only for locks it now holds. */
  ghost predicate SignsAt(nodeId: string, signed: set<WitnessReceipt>, locks: map<Digest, Lock>) {
    forall r :: r in signed ==> r.Witness() == nodeId && At(r, locks)
  }

  /** What every step of an honest node keeps. */
  ghost predicate Sound(cfg: Config, signed: set<WitnessReceipt>, n: Node, nodeId: string, r: Reaction) {
    && NodeOk(cfg, signed, r.node)
    && Advances(n.protocol.locks, r.node.protocol.locks)
    && SignsAt(nodeId, r.signed, r.node.protocol.locks)
  }

  lemma AdvancesSelf(locks: map<Digest, Lock>)
    ensures Advances(locks, locks)
  {}

  lemma WitnessSound(cfg: Config, signed: set<WitnessReceipt>, n: Node, nodeId: string, c: Capsule, status: Status)
    requires NodeOk(cfg, signed, n)
    ensures Sound(cfg, signed, n, nodeId, WitnessStep(n, nodeId, c, status).0)
  {
    hide ProtocolOk, PoolsGenuine, Advances, At, ProtocolState.Witness;
    WitnessOk(cfg, signed, n.protocol, n.applied, nodeId, c, status);
    WitnessAdvances(n.protocol, nodeId, c, status);
  }

  lemma CapsuleSound(cfg: Config, signed: set<WitnessReceipt>, n: Node, nodeId: string, c: Capsule)
    requires NodeOk(cfg, signed, n)
    ensures Sound(cfg, signed, n, nodeId, OnCapsule(n, nodeId, c))
  {
    hide ProtocolOk, PoolsGenuine, Advances, At, WitnessStep, ProtocolState.StoreCapsule, PutPending;
    AdvancesSelf(n.protocol.locks);
    StoreOk(cfg, signed, n.protocol, n.applied, c);
    var stored := n.(seenCapsules := n.seenCapsules + {c.Id()}, protocol := n.protocol.StoreCapsule(c));
    StoreLeaves(n.protocol, c);
    WitnessSound(cfg, signed, n, nodeId, c, Accept);
    WitnessSound(cfg, signed, stored, nodeId, c, Accept);
  }

  lemma StoreLeaves(p: ProtocolState, c: Capsule)
    ensures p.StoreCapsule(c).locks == p.locks
  {}

  lemma {:induction false} VerifiedInPool(p: ProtocolState, rs: seq<WitnessReceipt>)
    ensures forall r :: r in Verified(p, rs) ==> r in rs
  {
    hide ProtocolState.VerifyReceipt;
    if rs != [] { VerifiedInPool(p, rs[..|rs| - 1]); }
  }

  /** A closure the node builds itself holds receipts of its own pool only. */
  lemma BuiltFromPool(cfg: Config, signed: set<WitnessReceipt>, p: ProtocolState, rs: seq<WitnessReceipt>)
    requires AllGenuine(cfg, signed, rs)
    ensures var made := CreateProof(Accept, Verified(p, rs));
            made.Ok? ==> AllGenuine(cfg, signed, made.value.receipts)
  {
    hide Genuine, Verified, SortByWitness;
    var made := CreateProof(Accept, Verified(p, rs));
    VerifiedInPool(p, rs);
    SortSpec(Verified(p, rs));
    if made.Ok? {
      var s := made.value.receipts;
      forall i | 0 <= i < |s| ensures Genuine(cfg, signed, s[i]) {
        assert s[i] in multiset(s);
        assert s[i] in rs;
      }
    }
  }

  lemma TryCloseOk(cfg: Config, signed: set<WitnessReceipt>, n: Node, c: Capsule)
    requires NodeOk(cfg, signed, n)
    ensures NodeOk(cfg, signed, TryClose(n, c)) && TryClose(n, c).protocol.locks == n.protocol.locks
  {
    hide ProtocolOk, AllGenuine, CreateProof, RegisterAndApply, Verified, ReceiptWeight, ProtocolState.RequiredWeight;
    var pool := Pool(n, c.Id());
    assert AllGenuine(cfg, signed, pool) by { NoneGenuine(cfg, signed); }
    BuiltFromPool(cfg, signed, n.protocol, pool);
    var made := CreateProof(Accept, Verified(n.protocol, pool));
    hide PoolsGenuine;
    if made.Ok? { RegisterAndApplyOk(cfg, signed, n, c, made.value); }
  }

  lemma NoneGenuine(cfg: Config, signed: set<WitnessReceipt>)
    ensures AllGenuine(cfg, signed, [])
  {}

  lemma PutGenuine(cfg: Config, signed: set<WitnessReceipt>, rs: seq<WitnessReceipt>, r: WitnessReceipt)
    requires AllGenuine(cfg, signed, rs) && Genuine(cfg, signed, r)
    ensures AllGenuine(cfg, signed, Put(rs, r))
  {
    hide Genuine, Position;
  }

  lemma ReceiptSound(cfg: Config, signed: set<WitnessReceipt>, n: Node, nodeId: string, r: WitnessReceipt)
    requires NodeOk(cfg, signed, n) && Genuine(cfg, signed, r)
    ensures Sound(cfg, signed, n, nodeId, OnReceipt(n, r))
  {
    hide ProtocolOk, AllGenuine, Genuine, Advances, TryClose, Put, ProtocolState.VerifyReceipt;
    AdvancesSelf(n.protocol.locks);
    var id := r.statement.capsuleId;
    NoneGenuine(cfg, signed);
    PutGenuine(cfg, signed, Pool(n, id), r);
    var key := (id, r.Witness());
    var heard := if key in n.receiptHistory then n.receiptHistory[key] else {};
    var kept := n.(receiptHistory := n.receiptHistory[key := heard + {r.Id()}],
                   receiptPool := n.receiptPool[id := Put(Pool(n, id), r)]);
    assert NodeOk(cfg, signed, kept);
    hide NodeOk;
    if id in n.protocol.capsules { TryCloseOk(cfg, signed, kept, n.protocol.capsules[id]); }
  }

  lemma ClosureSound(cfg: Config, signed: set<WitnessReceipt>, n: Node, nodeId: string, c: Capsule, proof: Proof)
    requires NodeOk(cfg, signed, n) && AllGenuine(cfg, signed, proof.receipts)
    ensures Sound(cfg, signed, n, nodeId, OnClosure(n, c, proof))
  {
    hide ProtocolOk, PoolsGenuine, AllGenuine, Advances, RegisterAndApply, ProtocolState.StoreCapsule;
    AdvancesSelf(n.protocol.locks);
    StoreOk(cfg, signed, n.protocol, n.applied, c);
    StoreLeaves(n.protocol, c);
    RegisterAndApplyOk(cfg, signed, n.(protocol := n.protocol.StoreCapsule(c)), c, proof);
  }

  lemma RetrySound(cfg: Config, signed: set<WitnessReceipt>, n: Node, nodeId: string, c: Capsule)
    requires NodeOk(cfg, signed, n)
    ensures Sound(cfg, signed, n, nodeId, RetryOne(n, nodeId, c))
  {
    hide ProtocolOk, PoolsGenuine, Advances, OnCapsule, WithoutPending;
    AdvancesSelf(n.protocol.locks);
    CapsuleSound(cfg, signed, n.(pendingCapsules := WithoutPending(n.pendingCapsules, c.Id()),
                                 seenCapsules := n.seenCapsules - {c.Id()}), nodeId, c);
  }

  /** Whatever message arrives, an honest node's step is sound. */
  lemma ReactSound(cfg: Config, signed: set<WitnessReceipt>, n: Node, nodeId: string, e: Event)
    requires NodeOk(cfg, signed, n) && AllGenuine(cfg, signed, ReceiptsOf(e))
    ensures Sound(cfg, signed, n, nodeId, React(n, nodeId, e))
  {
    hide OnCapsule, OnReceipt, OnClosure, RetryOne, WitnessStep, Genuine, Sound;
    match e
    case Submit(c) => SubmitSound(cfg, signed, n, nodeId, c);
    case CapsuleArrives(c) => CapsuleSound(cfg, signed, n, nodeId, c);
    case ReceiptArrives(r) => assert Genuine(cfg, signed, ReceiptsOf(e)[0]); ReceiptSound(cfg, signed, n, nodeId, r);
    case ClosureArrives(c, proof) => ClosureSound(cfg, signed, n, nodeId, c, proof);
    case Retry(c) => RetrySound(cfg, signed, n, nodeId, c);
    case AbandonLocally(c) => WitnessSound(cfg, signed, n, nodeId, c, Status.Abandon);
  }

  lemma SubmitSound(cfg: Config, signed: set<WitnessReceipt>, n: Node, nodeId: string, c: Capsule)
    requires NodeOk(cfg, signed, n)
    ensures Sound(cfg, signed, n, nodeId, OnSubmit(n, c))
  {
    hide ProtocolOk, PoolsGenuine, Advances, ProtocolState.StoreCapsule;
    AdvancesSelf(n.protocol.locks);
    StoreOk(cfg, signed, n.protocol, n.applied, c);
    StoreLeaves(n.protocol, c);
  }
}
