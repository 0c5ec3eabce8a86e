/**
 Safety over all runs of a committee: exclusive closures, and one history shared by all honest nodes.
 */
module Agreement {
  import opened Results
  import opened Model
  import opened Quorums
  import opened Certificates
  import opened Protocol
  import opened SealChain
  import opened ProtocolRuns
  import opened Nodes
  import opened Replicas

  type Step = (string, Event)

  // ----- Runs

  /** A message may carry anything but receipts forged in an honest member's name. */
  ghost predicate Admissible(cfg: Config, s: System, step: Step) {
    step.0 in s.nodes && AllGenuine(cfg, s.signed, ReceiptsOf(step.1))
  }

  ghost function Take(s: System, step: Step): System
    requires step.0 in s.nodes
  {
    var r := React(s.nodes[step.0], step.0, step.1);
    System(s.nodes[step.0 := r.node], s.signed + r.signed)
  }

  /** The system after a run, if every step of it was admissible. */
  ghost function Exec(cfg: Config, s: System, run: seq<Step>): Option<System> {
    if run == [] then Some(s)
    else
      match Exec(cfg, s, run[..|run| - 1])
      case None => None
      case Some(t) => if Admissible(cfg, t, run[|run| - 1]) then Some(Take(t, run[|run| - 1])) else None
  }

  ghost predicate GenesisOk(cfg: Config) {
    Chained(cfg.heads, cfg.known) && forall id :: id in cfg.known ==> cfg.known[id].version == 0
  }

  ghost predicate FreshNode(cfg: Config, n: Node) {
    && SameCommittee(n.protocol.members, cfg.members)
    && n.protocol == ProtocolState(n.protocol.members, cfg.epoch, cfg.heads, cfg.known,
                                   map[], map[], map[], map[], map[])
    && n.receiptPool == map[] && n.applied == {}
  }

  /** Every honest node starts from the same genesis, and nothing is signed yet. */
  ghost predicate Begins(cfg: Config, s: System) {
    && GenesisOk(cfg) && s.nodes.Keys !! cfg.byzantine && s.signed == {}
    && forall id :: id in s.nodes ==> FreshNode(cfg, s.nodes[id])
  }

  // ----- The invariant of all runs

  ghost predicate OnePerAttempt(signed: set<WitnessReceipt>) {
    forall q, r :: q in signed && r in signed && SameClaim(q, r) ==> q.statement.capsuleId == r.statement.capsuleId
  }

  predicate SameClaim(q: WitnessReceipt, r: WitnessReceipt) {
    && q.Witness() == r.Witness()
    && q.statement.predecessorId == r.statement.predecessorId
    && q.statement.attempt == r.statement.attempt
  }

  ghost predicate AllBehind(signed: set<WitnessReceipt>, nodes: map<string, Node>) {
    forall r :: r in signed ==> r.Witness() in nodes && Behind(r, nodes[r.Witness()].protocol.locks)
  }

  ghost predicate SystemOk(cfg: Config, s: System) {
    && s.nodes.Keys !! cfg.byzantine
    && (forall id :: id in s.nodes ==> NodeOk(cfg, s.signed, s.nodes[id]))
    && AllBehind(s.signed, s.nodes)
    && OnePerAttempt(s.signed)
  }

  lemma FreshNodeOk(cfg: Config, n: Node)
    requires GenesisOk(cfg) && FreshNode(cfg, n)
    ensures NodeOk(cfg, {}, n)
  {
    hide SameCommittee, Linked, OneSealPerVersion;
    assert FromGenesis(cfg.known, cfg.known);
    hide FromGenesis;
  }

  lemma BeginsOk(cfg: Config, s: System)
    requires Begins(cfg, s)
    ensures SystemOk(cfg, s)
  {
    hide NodeOk, GenesisOk, FreshNode;
    forall id | id in s.nodes ensures NodeOk(cfg, s.signed, s.nodes[id]) { FreshNodeOk(cfg, s.nodes[id]); }
  }

  /** New receipts agree with the signer's lock, and every older one is behind it. */
  lemma SigningKeepsClaims(nodes: map<string, Node>, signed: set<WitnessReceipt>, id: string, node: Node,
                           more: set<WitnessReceipt>)
    requires AllBehind(signed, nodes) && OnePerAttempt(signed) && id in nodes
    requires Advances(nodes[id].protocol.locks, node.protocol.locks) && SignsAt(id, more, node.protocol.locks)
    ensures AllBehind(signed + more, nodes[id := node]) && OnePerAttempt(signed + more)
  {
    var nodes' := nodes[id := node];
    forall r | r in signed + more ensures r.Witness() in nodes' && Behind(r, nodes'[r.Witness()].protocol.locks) {
      if r in signed && r.Witness() == id { BehindStays(r, nodes[id].protocol.locks, node.protocol.locks); }
    }
    hide SignsAt, AllBehind, Advances;
    forall q, r | q in signed + more && r in signed + more && SameClaim(q, r)
      ensures q.statement.capsuleId == r.statement.capsuleId
    {
      if q in more { ClaimIsLocks(nodes', signed + more, id, node, more, q, r); }
      else if r in more { ClaimIsLocks(nodes', signed + more, id, node, more, r, q); }
    }
  }

  lemma ClaimIsLocks(nodes: map<string, Node>, all: set<WitnessReceipt>, id: string, node: Node,
                     more: set<WitnessReceipt>, q: WitnessReceipt, r: WitnessReceipt)
    requires AllBehind(all, nodes) && id in nodes && nodes[id] == node
    requires SignsAt(id, more, node.protocol.locks) && q in more && r in all && SameClaim(q, r)
    ensures q.statement.capsuleId == r.statement.capsuleId
  {
    assert Behind(r, node.protocol.locks);
  }

  lemma StepOk(cfg: Config, s: System, step: Step)
    requires SystemOk(cfg, s) && Admissible(cfg, s, step)
    ensures SystemOk(cfg, Take(s, step))
  {
    hide NodeOk, React, SignsAt, Advances, AllBehind, OnePerAttempt, AllGenuine;
    var n := s.nodes[step.0];
    var r := React(n, step.0, step.1);
    ReactSound(cfg, s.signed, n, step.0, step.1);
    SigningKeepsClaims(s.nodes, s.signed, step.0, r.node, r.signed);
    var t := Take(s, step);
    forall id | id in t.nodes ensures NodeOk(cfg, t.signed, t.nodes[id]) {
      NodeStays(cfg, s.signed, t.signed, t.nodes[id]);
    }
  }

  lemma {:induction false} RunOk(cfg: Config, s: System, run: seq<Step>)
    requires Begins(cfg, s) && Exec(cfg, s, run).Some?
    ensures SystemOk(cfg, Exec(cfg, s, run).value)
  {
    hide SystemOk, Begins, Take, Admissible;
    if run == [] {
      BeginsOk(cfg, s);
    } else {
      RunOk(cfg, s, run[..|run| - 1]);
      StepOk(cfg, Exec(cfg, s, run[..|run| - 1]).value, run[|run| - 1]);
    }
  }

  lemma {:induction false} SignedGrows(cfg: Config, s: System, run: seq<Step>, more: seq<Step>)
    requires Exec(cfg, s, run + more).Some?
    ensures Exec(cfg, s, run).Some?
    ensures Exec(cfg, s, run).value.signed <= Exec(cfg, s, run + more).value.signed
  {
    hide Admissible, React;
    if more == [] {
      assert run + more == run;
    } else {
      assert (run + more)[..|run + more| - 1] == run + more[..|more| - 1];
      SignedGrows(cfg, s, run, more[..|more| - 1]);
    }
  }

  // ----- Exclusive closures

  ghost predicate HonestMajority(cfg: Config) {
    3 * Weight(Weights(cfg.members), cfg.byzantine) <= Total(Weights(cfg.members))
  }

  lemma CertifiedOncePerAttempt(cfg: Config, s: System, a: CapsuleBody, b: CapsuleBody)
    requires SystemOk(cfg, s) && HonestMajority(cfg)
    requires Certified(cfg, s.signed, a) && Certified(cfg, s.signed, b)
    requires a.predecessorId == b.predecessorId && a.attempt == b.attempt
    ensures a == b
  {
    hide NodeOk, AllBehind;
    var h := HonestIntersection(Weights(cfg.members), Backers(cfg, s.signed, a), Backers(cfg, s.signed, b), cfg.byzantine);
    assert Backs(cfg, s.signed, h, a) && Backs(cfg, s.signed, h, b);
    var key := cfg.members[h].publicKey;
    assert SameClaim(SignedReceipt(key, h, a, Accept), SignedReceipt(key, h, b, Accept));
  }

  lemma VerifiedHere(cfg: Config, s: System, id: string, c: Capsule, proof: Proof)
    requires SystemOk(cfg, s) && id in s.nodes
    requires s.nodes[id].protocol.VerifyClosure(c, proof) && AllGenuine(cfg, s.signed, proof.receipts)
    ensures Certified(cfg, s.signed, c.body)
  {
    hide Good, FromGenesis, AllCertified, PoolsGenuine, AllBehind, OnePerAttempt, AllGenuine, SameCommittee,
         ProtocolState.VerifyClosure, Certified;
    assert NodeOk(cfg, s.signed, s.nodes[id]);
    FiledOf(s.nodes[id].protocol, s.nodes[id].applied);
    VerifiedIsCertified(cfg, s.signed, s.nodes[id].protocol, c, proof);
  }

  /**
   In every run, with any mix of accepting and abandoning, two closures that pass verify_closure, at any two honest
   nodes and at any two moments, are about one capsule if they share predecessor and attempt.
   */
  lemma ClosureExclusivity(cfg: Config, s: System, run: seq<Step>, more: seq<Step>,
                           id1: string, c1: Capsule, proof1: Proof, id2: string, c2: Capsule, proof2: Proof)
    requires Begins(cfg, s) && HonestMajority(cfg) && Exec(cfg, s, run + more).Some? && Exec(cfg, s, run).Some?
    requires var t := Exec(cfg, s, run).value;
             id1 in t.nodes && t.nodes[id1].protocol.VerifyClosure(c1, proof1) && AllGenuine(cfg, t.signed, proof1.receipts)
    requires var t := Exec(cfg, s, run + more).value;
             id2 in t.nodes && t.nodes[id2].protocol.VerifyClosure(c2, proof2) && AllGenuine(cfg, t.signed, proof2.receipts)
    requires c1.body.predecessorId == c2.body.predecessorId && c1.body.attempt == c2.body.attempt
    ensures c1.Id() == c2.Id()
  {
    hide Begins, SystemOk, Exec, AllGenuine, Certified, ProtocolState.VerifyClosure, HonestMajority;
    RunOk(cfg, s, run);
    RunOk(cfg, s, run + more);
    SignedGrows(cfg, s, run, more);
    var t1, t2 := Exec(cfg, s, run).value, Exec(cfg, s, run + more).value;
    VerifiedHere(cfg, t1, id1, c1, proof1);
    VerifiedHere(cfg, t2, id2, c2, proof2);
    CertifiedStays(cfg, t1.signed, t2.signed, c1.body);
    CertifiedOncePerAttempt(cfg, t2, c1.body, c2.body);
  }

  // ----- Runs in which honest nodes only accept

  /** The network's dispatch never asks a node to witness an abandonment. */
  predicate Dispatched(run: seq<Step>) { forall i :: 0 <= i < |run| ==> !run[i].1.AbandonLocally? }

  ghost predicate SignedForLock(signed: set<WitnessReceipt>, nodes: map<string, Node>) {
    forall r :: r in signed ==> r.Witness() in nodes && Stands(nodes[r.Witness()].protocol.locks, r)
  }

  predicate Stands(locks: map<Digest, Lock>, r: WitnessReceipt) {
    r.statement.predecessorId in locks && locks[r.statement.predecessorId].capsuleId == r.statement.capsuleId
  }

  /** Locks are final: every lock is an ACCEPT, and every receipt is for the lock its signer still holds. */
  ghost predicate Final(s: System) {
    && (forall id :: id in s.nodes ==> OnlyAccepts(s.nodes[id].protocol.locks))
    && SignedForLock(s.signed, s.nodes)
  }

  ghost predicate KeepsLocks(n: Node, m: Node) {
    OnlyAccepts(m.protocol.locks) && Extends(n.protocol.locks, m.protocol.locks)
  }

  lemma CapsuleKeepsLocks(n: Node, id: string, c: Capsule)
    requires OnlyAccepts(n.protocol.locks)
    ensures KeepsLocks(n, OnCapsule(n, id, c).node)
  {
    hide OnlyAccepts, ProtocolState.Witness, ProtocolState.StoreCapsule, PutPending;
    assert Extends(n.protocol.locks, n.protocol.locks);
    StoreLeaves(n.protocol, c);
    AcceptExtends(n.protocol, id, c);
    AcceptExtends(n.protocol.StoreCapsule(c), id, c);
    hide Extends;
  }

  lemma RegisterAndApplyLeaves(n: Node, c: Capsule, proof: Proof)
    ensures RegisterAndApply(n, c, proof).protocol.locks == n.protocol.locks
  {
    hide ProtocolState.Register, ProtocolState.Apply;
    RegisterLeaves(n.protocol, c, proof);
    ApplyLeaves(n.protocol.Register(c, proof).state, c, proof);
  }

  lemma TryCloseLeaves(n: Node, c: Capsule)
    ensures TryClose(n, c).protocol.locks == n.protocol.locks
  {
    hide RegisterAndApply, CreateProof, Verified, ReceiptWeight, ProtocolState.RequiredWeight;
    var made := CreateProof(Accept, Verified(n.protocol, Pool(n, c.Id())));
    if made.Ok? { RegisterAndApplyLeaves(n, c, made.value); }
  }

  lemma ReceiptLeaves(n: Node, r: WitnessReceipt)
    ensures OnReceipt(n, r).node.protocol.locks == n.protocol.locks
  {
    hide TryClose, Put, Pool, ProtocolState.VerifyReceipt;
    var id := r.statement.capsuleId;
    var key := (id, r.Witness());
    var heard := if key in n.receiptHistory then n.receiptHistory[key] else {};
    var kept := n.(receiptHistory := n.receiptHistory[key := heard + {r.Id()}],
                   receiptPool := n.receiptPool[id := Put(Pool(n, id), r)]);
    if id in n.protocol.capsules { TryCloseLeaves(kept, n.protocol.capsules[id]); }
  }

  lemma ReactKeepsLocks(n: Node, id: string, e: Event)
    requires OnlyAccepts(n.protocol.locks) && !e.AbandonLocally?
    ensures KeepsLocks(n, React(n, id, e).node)
  {
    assert Extends(n.protocol.locks, n.protocol.locks);
    hide Extends, OnlyAccepts, OnCapsule, OnReceipt, RegisterAndApply, WithoutPending, ProtocolState.StoreCapsule;
    match e
    case Submit(c) => StoreLeaves(n.protocol, c);
    case CapsuleArrives(c) => CapsuleKeepsLocks(n, id, c);
    case ReceiptArrives(r) => ReceiptLeaves(n, r);
    case ClosureArrives(c, proof) =>
      StoreLeaves(n.protocol, c);
      RegisterAndApplyLeaves(n.(protocol := n.protocol.StoreCapsule(c)), c, proof);
    case Retry(c) =>
      CapsuleKeepsLocks(n.(pendingCapsules := WithoutPending(n.pendingCapsules, c.Id()),
                           seenCapsules := n.seenCapsules - {c.Id()}), id, c);
  }

  lemma SigningKeepsFinal(s: System, id: string, node: Node, more: set<WitnessReceipt>)
    requires Final(s) && id in s.nodes && KeepsLocks(s.nodes[id], node)
    requires SignsAt(id, more, node.protocol.locks)
    ensures Final(System(s.nodes[id := node], s.signed + more))
  {
    hide OnlyAccepts;
    var nodes' := s.nodes[id := node];
    forall r | r in s.signed + more ensures r.Witness() in nodes' && Stands(nodes'[r.Witness()].protocol.locks, r) {
      if r in s.signed { assert Stands(s.nodes[r.Witness()].protocol.locks, r); }
    }
  }

  lemma {:induction false} RunFinal(cfg: Config, s: System, run: seq<Step>)
    requires Begins(cfg, s) && Exec(cfg, s, run).Some? && Dispatched(run)
    ensures Final(Exec(cfg, s, run).value)
  {
    hide React, SystemOk, NodeOk, KeepsLocks, SignsAt, Advances;
    if run == [] {
      hide GenesisOk, SameCommittee;
    } else {
      hide Begins, AllGenuine;
      var n := |run| - 1;
      RunFinal(cfg, s, run[..n]);
      RunOk(cfg, s, run[..n]);
      var t, step := Exec(cfg, s, run[..n]).value, run[n];
      StepFinal(cfg, t, step);
    }
  }

  lemma StepFinal(cfg: Config, s: System, step: Step)
    requires SystemOk(cfg, s) && Final(s) && Admissible(cfg, s, step) && !step.1.AbandonLocally?
    ensures Final(Take(s, step))
  {
    hide React, NodeOk, KeepsLocks, SignsAt, Advances, OnlyAccepts, AllGenuine, AllBehind, OnePerAttempt;
    var n := s.nodes[step.0];
    ReactSound(cfg, s.signed, n, step.0, step.1);
    ReactKeepsLocks(n, step.0, step.1);
    hide SignedForLock;
    SigningKeepsFinal(s, step.0, React(n, step.0, step.1).node, React(n, step.0, step.1).signed);
  }

  /** One certified capsule per predecessor, whatever the attempt. */
  lemma CertifiedOnce(cfg: Config, s: System, a: CapsuleBody, b: CapsuleBody)
    requires Final(s) && s.nodes.Keys !! cfg.byzantine && HonestMajority(cfg)
    requires Certified(cfg, s.signed, a) && Certified(cfg, s.signed, b) && a.predecessorId == b.predecessorId
    ensures a == b
  {
    hide OnlyAccepts, Weight, Threshold;
    var h := HonestIntersection(Weights(cfg.members), Backers(cfg, s.signed, a), Backers(cfg, s.signed, b), cfg.byzantine);
    assert Backs(cfg, s.signed, h, a) && Backs(cfg, s.signed, h, b);
    var key := cfg.members[h].publicKey;
    var locks := s.nodes[h].protocol.locks;
    assert Stands(locks, SignedReceipt(key, h, a, Accept)) && Stands(locks, SignedReceipt(key, h, b, Accept));
  }

  // ----- One history

  /** A seal past genesis with what put it there. */
  lemma SealOrigin(cfg: Config, s: System, id: string, seal: StateSeal) returns (predecessor: StateSeal, body: CapsuleBody)
    requires SystemOk(cfg, s) && id in s.nodes && seal.Id() in s.nodes[id].protocol.knownSeals && seal.version > 0
    ensures predecessor.Id() in s.nodes[id].protocol.knownSeals && predecessor.Id() == body.predecessorId
    ensures seal == Successor(predecessor, body) && predecessor.version >= 0
    ensures Certified(cfg, s.signed, body)
  {
    assert NodeOk(cfg, s.signed, s.nodes[id]);
    var p := s.nodes[id].protocol;
    hide SystemOk, PoolsGenuine, Certified, SameCommittee, FromGenesis, Filed, AllApplied;
    assert p.knownSeals[seal.Id()] == seal;
    assert Grown(p.knownSeals, seal);
    body := seal.capabilityHash.inner.body;
    predecessor := p.knownSeals[body.predecessorId];
    hide OneSealPerVersion, AllGrown, CurrentKnown;
    assert body.Id() in s.nodes[id].applied;
  }

  lemma GenesisSeal(cfg: Config, s: System, id: string, seal: StateSeal)
    requires SystemOk(cfg, s) && id in s.nodes && seal.Id() in s.nodes[id].protocol.knownSeals
    ensures seal.version == 0 ==> seal.Id() in cfg.known && cfg.known[seal.Id()] == seal
    ensures seal.version >= 0
  {
    assert NodeOk(cfg, s.signed, s.nodes[id]);
    var p := s.nodes[id].protocol;
    hide SystemOk, PoolsGenuine, AllCertified, SameCommittee, Filed, AllApplied, Recorded, OneSealPerVersion, AllGrown;
    assert p.knownSeals[seal.Id()] == seal;
  }

  lemma HonestNodes(cfg: Config, s: System)
    requires SystemOk(cfg, s)
    ensures s.nodes.Keys !! cfg.byzantine
  {
    hide NodeOk, AllBehind, OnePerAttempt;
  }

  /** Any two honest nodes hold the same seal at every version of every resource. */
  lemma {:induction false} SameSeal(cfg: Config, s: System, a: string, b: string, x: StateSeal, y: StateSeal)
    requires SystemOk(cfg, s) && Final(s) && HonestMajority(cfg) && GenesisOk(cfg) && a in s.nodes && b in s.nodes
    requires x.Id() in s.nodes[a].protocol.knownSeals && y.Id() in s.nodes[b].protocol.knownSeals && SamePlace(x, y)
    ensures x == y
    decreases x.version
  {
    hide SystemOk, Final, HonestMajority, Certified;
    GenesisSeal(cfg, s, a, x);
    GenesisSeal(cfg, s, b, y);
    if x.version == 0 {
      hide FiledSeals, CurrentKnown, CurrentIsLast, AllGrown;
    } else {
      hide GenesisOk;
      var px, bx := SealOrigin(cfg, s, a, x);
      var py, by' := SealOrigin(cfg, s, b, y);
      SameSeal(cfg, s, a, b, px, py);
      HonestNodes(cfg, s);
      CertifiedOnce(cfg, s, bx, by');
    }
  }

  /** The seals that lead from genesis to this one, following predecessors. */
  function History(known: map<Digest, StateSeal>, s: StateSeal): seq<StateSeal>
    decreases s.version
  {
    if s.version > 0 && Grown(known, s) then History(known, known[s.capabilityHash.inner.body.predecessorId]) + [s]
    else [s]
  }

  /** The seals stored under their identifiers follow one another from version 0 up to this one. */
  ghost predicate Leads(known: map<Digest, StateSeal>, h: seq<StateSeal>, s: StateSeal) {
    && |h| == s.version + 1
    && (forall v :: 0 <= v < |h| ==> h[v].Id() in known)
    && forall v :: 0 <= v < |h| ==> SamePlace(h[v], s.(version := v))
  }

  lemma LeadsFurther(known: map<Digest, StateSeal>, h: seq<StateSeal>, p: StateSeal, s: StateSeal)
    requires Leads(known, h, p) && s.Id() in known && s.version == p.version + 1 && SamePlace(p, s.(version := p.version))
    ensures Leads(known, h + [s], s)
  {}

  lemma LinkedSeal(current: map<string, StateSeal>, known: map<Digest, StateSeal>, s: StateSeal)
    requires Linked(current, known) && s.Id() in known
    ensures s.version >= 0
    ensures s.version > 0 ==>
              && Grown(known, s)
              && var p := known[s.capabilityHash.inner.body.predecessorId];
              && p.Id() in known && s.version == p.version + 1 && SamePlace(p, s.(version := p.version))
  {
    assert known[s.Id()] == s;
    hide CurrentKnown, CurrentIsLast;
  }

  lemma {:induction false} HistorySpec(current: map<string, StateSeal>, known: map<Digest, StateSeal>, s: StateSeal)
    requires Linked(current, known) && s.Id() in known
    ensures Leads(known, History(known, s), s)
    decreases s.version
  {
    hide Linked, Leads;
    LinkedSeal(current, known, s);
    if s.version > 0 {
      var p := known[s.capabilityHash.inner.body.predecessorId];
      HistorySpec(current, known, p);
      LeadsFurther(known, History(known, p), p, s);
    } else {
      LeadsAlone(known, s);
    }
  }

  lemma LeadsAlone(known: map<Digest, StateSeal>, s: StateSeal)
    requires s.Id() in known && s.version == 0
    ensures Leads(known, [s], s)
  {}

  /** What an honest node takes to be the history of a resource. */
  function HistoryAt(n: Node, resource: string): seq<StateSeal>
    requires resource in n.protocol.currentSeals
  {
    History(n.protocol.knownSeals, n.protocol.currentSeals[resource])
  }

  lemma NodeLinked(cfg: Config, s: System, id: string, resource: string)
    requires SystemOk(cfg, s) && id in s.nodes && resource in s.nodes[id].protocol.currentSeals
    ensures var p := s.nodes[id].protocol;
            && Linked(p.currentSeals, p.knownSeals)
            && p.currentSeals[resource].resourceId == resource && p.currentSeals[resource].Id() in p.knownSeals
  {
    assert NodeOk(cfg, s.signed, s.nodes[id]);
    hide SystemOk, SameCommittee, FromGenesis, Filed, AllApplied, AllCertified, Recorded, PoolsGenuine,
         FiledSeals, CurrentIsLast, OneSealPerVersion, AllGrown;
  }

  lemma HistoryAtSpec(cfg: Config, s: System, id: string, resource: string)
    requires SystemOk(cfg, s) && id in s.nodes && resource in s.nodes[id].protocol.currentSeals
    ensures var h := HistoryAt(s.nodes[id], resource);
            && (forall v :: 0 <= v < |h| ==> h[v].Id() in s.nodes[id].protocol.knownSeals)
            && (forall v :: 0 <= v < |h| ==> h[v].resourceId == resource && h[v].version == v)
  {
    hide SystemOk, Linked, History;
    var p := s.nodes[id].protocol;
    NodeLinked(cfg, s, id, resource);
    HistorySpec(p.currentSeals, p.knownSeals, p.currentSeals[resource]);
  }

  /**
   In every run in which honest nodes only accept, and Byzantine weight is at most a third, the histories two honest
   nodes hold of a resource are equal up to one of them being shorter.
   */
  lemma ReplicaAgreement(cfg: Config, s: System, run: seq<Step>, a: string, b: string, resource: string)
    requires Begins(cfg, s) && HonestMajority(cfg) && Dispatched(run) && Exec(cfg, s, run).Some?
    requires var t := Exec(cfg, s, run).value;
             && a in t.nodes && b in t.nodes
             && resource in t.nodes[a].protocol.currentSeals && resource in t.nodes[b].protocol.currentSeals
    ensures var t := Exec(cfg, s, run).value;
            var ha, hb := HistoryAt(t.nodes[a], resource), HistoryAt(t.nodes[b], resource);
            ha <= hb || hb <= ha
  {
    hide GenesisOk, FreshNode, SystemOk, Final, HonestMajority, Exec, HistoryAt, Dispatched;
    var t := Exec(cfg, s, run).value;
    RunOk(cfg, s, run);
    RunFinal(cfg, s, run);
    hide Begins;
    HistoryAtSpec(cfg, t, a, resource);
    HistoryAtSpec(cfg, t, b, resource);
    var ha, hb := HistoryAt(t.nodes[a], resource), HistoryAt(t.nodes[b], resource);
    forall v | 0 <= v < |ha| && v < |hb| ensures ha[v] == hb[v] {
      SameSeal(cfg, t, a, b, ha[v], hb[v]);
    }
  }
}
