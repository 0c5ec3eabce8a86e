/**
 Runs of one node from an empty start: what every run keeps, and what the outcomes a node reports mean.
 */
module Outcomes {
  import opened Results
  import opened Model
  import opened Certificates
  import opened Protocol
  import opened SealChain
  import opened ProtocolRuns
  import opened Bundles

  function Start(members: Members, epoch: int): ProtocolState {
    ProtocolState(members, epoch, map[], map[], map[], map[], map[], map[], map[])
  }

  ghost predicate ForkFree(op: Operation) { op.ApplyBundle? ==> NoForkIn(Elements(op.entries)) }

  /** Did the operation raise a KeyError, that is, run into an entry its tables lack? */
  ghost predicate MissesKey(p: ProtocolState, op: Operation) {
    match op
    case CreateResource(r, owner, root, secret) => p.CreateResource(r, owner, root, secret).result == Err(KeyError)
    case StoreCapsule(c) => false
    case Witness(m, c, status) => p.Witness(m, c, status).result == Err(KeyError)
    case Register(c, proof) => p.Register(c, proof).result == Err(KeyError)
    case Close(c, receipts) => p.Close(c, receipts).result == Err(KeyError)
    case AbandonCapsule(c, receipts) => p.AbandonCapsule(c, receipts).result == Err(KeyError)
    case Apply(c, proof) => p.Apply(c, proof).result == Err(KeyError)
    case ApplyBundle(bundle, entries) => p.ApplyBundle(bundle, entries).result == Err(KeyError)
  }

  ghost predicate Kept(p: ProtocolState, applied: set<Digest>, op: Operation) {
    && Good(Do(p, op), applied + AppliedBy(p, op))
    && Grows(p, Do(p, op))
    && !MissesKey(p, op)
  }

  lemma StoreKeeps(p: ProtocolState, applied: set<Digest>, c: Capsule)
    requires Good(p, applied)
    ensures Good(p.StoreCapsule(c), applied) && Grows(p, p.StoreCapsule(c))
  {
    StoreKeepsFiled(p, c);
    EvidenceReflexive(p.conflictEvidence);
    hide Good, Grows, Filed;
    SameSealsKeep(p, p.StoreCapsule(c), applied);
  }

  lemma WitnessStepKeeps(p: ProtocolState, applied: set<Digest>, m: string, c: Capsule, status: Status)
    requires Good(p, applied)
    ensures var o := p.Witness(m, c, status);
            Good(o.state, applied) && Grows(p, o.state) && o.result != Err(KeyError)
  {
    hide ProtocolState.Witness, Filed, Grows, CurrentIsLast;
    WitnessKeeps(p, m, c, status);
    SameSealsKeep(p, p.Witness(m, c, status).state, applied);
  }

  lemma GatherStepKeeps(p: ProtocolState, applied: set<Digest>, c: Capsule, receipts: seq<WitnessReceipt>, kind: Status)
    requires Good(p, applied)
    ensures var o := p.Gather(c, receipts, kind);
            Good(o.state, applied) && Grows(p, o.state) && o.result != Err(KeyError)
  {
    hide ProtocolState.Gather, Filed, Grows, CurrentIsLast;
    GatherKeeps(p, c, receipts, kind);
    SameSealsKeep(p, p.Gather(c, receipts, kind).state, applied);
  }

  lemma CloseWithStepKeeps(p: ProtocolState, applied: set<Digest>, c: Capsule, receipts: seq<WitnessReceipt>)
    requires Good(p, applied)
    ensures var o := p.CloseWith(c, receipts);
            Good(o.state, applied) && Grows(p, o.state) && o.result != Err(KeyError)
  {
    hide ProtocolState.CloseWith, Filed, Grows;
    CloseWithKeeps(p, c, receipts);
    EvidenceReflexive(p.conflictEvidence);
    SameSealsKeep(p, p.CloseWith(c, receipts).state, applied);
  }

  lemma AbandonWithStepKeeps(p: ProtocolState, applied: set<Digest>, c: Capsule, receipts: seq<WitnessReceipt>)
    requires Good(p, applied)
    ensures var o := p.AbandonWith(c, receipts);
            Good(o.state, applied) && Grows(p, o.state) && o.result != Err(KeyError)
  {
    hide ProtocolState.AbandonWith, Filed, Grows;
    AbandonWithKeeps(p, c, receipts);
    EvidenceReflexive(p.conflictEvidence);
    SameSealsKeep(p, p.AbandonWith(c, receipts).state, applied);
  }

  lemma CloseStepKeeps(p: ProtocolState, applied: set<Digest>, c: Capsule, receipts: seq<WitnessReceipt>)
    requires Good(p, applied)
    ensures var o := p.Close(c, receipts);
            Good(o.state, applied) && Grows(p, o.state) && o.result != Err(KeyError)
  {
    hide Good, Grows, ProtocolState.Gather, ProtocolState.CloseWith, ProtocolState.ValidCapsule;
    GrowsSelf(p);
    GatherStepKeeps(p, applied, c, receipts, Accept);
    var gathered := p.Gather(c, receipts, Accept);
    if gathered.result.Ok? {
      CloseWithStepKeeps(gathered.state, applied, c, gathered.result.value);
      GrowsThrough(p, gathered.state, gathered.state.CloseWith(c, gathered.result.value).state);
    }
  }

  lemma AbandonStepKeeps(p: ProtocolState, applied: set<Digest>, c: Capsule, receipts: seq<WitnessReceipt>)
    requires Good(p, applied)
    ensures var o := p.AbandonCapsule(c, receipts);
            Good(o.state, applied) && Grows(p, o.state) && o.result != Err(KeyError)
  {
    hide Good, Grows, ProtocolState.Gather, ProtocolState.AbandonWith;
    GrowsSelf(p);
    GatherStepKeeps(p, applied, c, receipts, Status.Abandon);
    var gathered := p.Gather(c, receipts, Status.Abandon);
    if gathered.result.Ok? {
      AbandonWithStepKeeps(gathered.state, applied, c, gathered.result.value);
      GrowsThrough(p, gathered.state, gathered.state.AbandonWith(c, gathered.result.value).state);
    }
  }

  lemma BundleStepKeeps(p: ProtocolState, applied: set<Digest>, bundle: BundleClosure, entries: seq<Entry>)
    requires Good(p, applied)
    ensures var o := p.ApplyBundle(bundle, entries);
            && Good(o.state, applied + if p.BundleReady(bundle, entries) then EntryIds(entries) else {})
            && Grows(p, o.state) && o.result != Err(KeyError)
  {
    GrowsSelf(p);
    assert applied + {} == applied;
    hide Good, Grows, ProtocolState.BundleReady, ProtocolState.InstallAll, NextSeals, EntryIds;
    if p.BundleReady(bundle, entries) { BundleKeeps(p, applied, bundle, entries); }
  }

  /** The operations that apply no capsule. */
  lemma EarlierStepKeeps(p: ProtocolState, applied: set<Digest>, op: Operation)
    requires Good(p, applied) && !op.Apply? && !op.ApplyBundle?
    ensures Kept(p, applied, op)
  {
    assert applied + {} == applied;
    hide Good, Grows, ProtocolState.CreateResource, ProtocolState.StoreCapsule, ProtocolState.Witness,
         ProtocolState.Register, ProtocolState.Close, ProtocolState.AbandonCapsule, OneSealPerVersion;
    match op
    case CreateResource(r, owner, root, secret) => CreateResourceKeeps(p, r, owner, root, secret, applied);
    case StoreCapsule(c) => StoreKeeps(p, applied, c);
    case Witness(m, c, status) => WitnessStepKeeps(p, applied, m, c, status);
    case Register(c, proof) => RegisteredKeeps(p, c, proof, applied);
    case Close(c, receipts) => CloseStepKeeps(p, applied, c, receipts);
    case AbandonCapsule(c, receipts) => AbandonStepKeeps(p, applied, c, receipts);
  }

  /** Every operation keeps the invariant, drops nothing and finds every table entry it looks up. */
  lemma StepKeeps(p: ProtocolState, applied: set<Digest>, op: Operation)
    requires Good(p, applied)
    ensures Kept(p, applied, op)
  {
    hide Good, Grows, ProtocolState.Apply, ProtocolState.ApplyBundle, ProtocolState.BundleReady, EntryIds;
    match op
    case Apply(c, proof) =>
      assert applied + {} == applied;
      ApplyKeeps(p, c, proof, applied);
    case ApplyBundle(bundle, entries) => BundleStepKeeps(p, applied, bundle, entries);
    case _ =>
      hide Kept;
      EarlierStepKeeps(p, applied, op);
  }

  // ----- Runs

  ghost function Run(p: ProtocolState, ops: seq<Operation>): ProtocolState {
    if ops == [] then p else Do(Run(p, ops[..|ops| - 1]), ops[|ops| - 1])
  }

  ghost function AppliedIn(p: ProtocolState, ops: seq<Operation>): set<Digest> {
    if ops == [] then {}
    else AppliedIn(p, ops[..|ops| - 1]) + AppliedBy(Run(p, ops[..|ops| - 1]), ops[|ops| - 1])
  }

  lemma {:induction false} RunKeeps(members: Members, epoch: int, ops: seq<Operation>)
    ensures Good(Run(Start(members, epoch), ops), AppliedIn(Start(members, epoch), ops))
  {
    hide Do, AppliedBy;
    var start := Start(members, epoch);
    if ops != [] {
      hide Good, Start;
      var before, op := ops[..|ops| - 1], ops[|ops| - 1];
      RunKeeps(members, epoch, before);
      StepKeeps(Run(start, before), AppliedIn(start, before), op);
    }
  }

  /** Running on only adds to what a run has recorded. */
  lemma {:induction false} RunGrows(members: Members, epoch: int, ops: seq<Operation>, more: seq<Operation>)
    ensures Grows(Run(Start(members, epoch), ops), Run(Start(members, epoch), ops + more))
  {
    hide Grows, Good, Do, AppliedBy, Start;
    var start := Start(members, epoch);
    if more == [] {
      assert ops + more == ops;
      GrowsSelf(Run(start, ops));
    } else {
      var n := |more| - 1;
      var before, all := ops + more[..n], ops + more;
      assert all[..|all| - 1] == before && all[|all| - 1] == more[n];
      RunGrows(members, epoch, ops, more[..n]);
      StepGrows(members, epoch, before, more[n]);
      assert before + [more[n]] == all;
      GrowsThrough(Run(start, ops), Run(start, before), Run(start, all));
    }
  }

  lemma StepGrows(members: Members, epoch: int, before: seq<Operation>, op: Operation)
    ensures Grows(Run(Start(members, epoch), before), Run(Start(members, epoch), before + [op]))
  {
    hide Grows, Good, Do, AppliedBy, Start;
    assert (before + [op])[|before|] == op;
    assert (before + [op])[..|before|] == before;
    RunKeeps(members, epoch, before);
    StepKeeps(Run(Start(members, epoch), before), AppliedIn(Start(members, epoch), before), op);
  }

  // ----- One chain per resource

  /** Without a fork in a bundle, every operation keeps one seal per version. */
  lemma StepKeepsPlaces(p: ProtocolState, applied: set<Digest>, op: Operation)
    requires Good(p, applied) && ForkFree(op)
    ensures KeepsPlaces(p.knownSeals, Do(p, op).knownSeals)
  {
    StepKeeps(p, applied, op);
    hide Good, Grows, Kept, OneSealPerVersion, ProtocolState.CreateResource, ProtocolState.Register, ProtocolState.Witness,
         ProtocolState.Close, ProtocolState.AbandonCapsule, ProtocolState.Apply, ProtocolState.BundleReady, NoForkIn,
         ProtocolState.InstallAll, NextSeals;
    match op
    case CreateResource(r, owner, root, secret) => CreateResourceKeeps(p, r, owner, root, secret, applied);
    case StoreCapsule(c) =>
    case Witness(m, c, status) => WitnessLeavesSeals(p, applied, m, c, status);
    case Register(c, proof) => RegisteredKeeps(p, c, proof, applied);
    case Close(c, receipts) => CloseLeavesSeals(p, applied, c, receipts);
    case AbandonCapsule(c, receipts) => AbandonLeavesSeals(p, applied, c, receipts);
    case Apply(c, proof) => ApplyKeeps(p, c, proof, applied);
    case ApplyBundle(bundle, entries) =>
      if p.BundleReady(bundle, entries) { BundleInAnyOrder(p, applied, bundle, entries, entries); }
  }

  lemma WitnessLeavesSeals(p: ProtocolState, applied: set<Digest>, m: string, c: Capsule, status: Status)
    requires Good(p, applied)
    ensures p.Witness(m, c, status).state.knownSeals == p.knownSeals
  {
    WitnessKeeps(p, m, c, status);
    hide Good, Filed, ProtocolState.Witness;
  }

  lemma FiledAndLast(p: ProtocolState, applied: set<Digest>)
    requires Good(p, applied)
    ensures Filed(p) && CurrentIsLast(p.currentSeals, p.knownSeals)
  {
    hide Filed, FiledSeals, CurrentKnown, CurrentIsLast, AllGrown, Recorded, AllApplied;
  }

  lemma GatheredSeals(p: ProtocolState, c: Capsule, receipts: seq<WitnessReceipt>, kind: Status)
    requires OnlyLocks(p, p.Gather(c, receipts, kind).state)
    ensures p.Gather(c, receipts, kind).state.knownSeals == p.knownSeals
  {
    hide ProtocolState.Gather, KeepsEvidence;
  }

  lemma CloseLeavesSeals(p: ProtocolState, applied: set<Digest>, c: Capsule, receipts: seq<WitnessReceipt>)
    requires Good(p, applied)
    ensures p.Close(c, receipts).state.knownSeals == p.knownSeals
  {
    hide Filed, CurrentIsLast, Good, OnlyLocks, ProtocolState.Gather, ProtocolState.CloseWith, ProtocolState.ValidCapsule;
    FiledAndLast(p, applied);
    GatherKeeps(p, c, receipts, Accept);
    GatheredSeals(p, c, receipts, Accept);
    var gathered := p.Gather(c, receipts, Accept);
    if gathered.result.Ok? { CloseWithKeeps(gathered.state, c, gathered.result.value); }
  }

  lemma AbandonLeavesSeals(p: ProtocolState, applied: set<Digest>, c: Capsule, receipts: seq<WitnessReceipt>)
    requires Good(p, applied)
    ensures p.AbandonCapsule(c, receipts).state.knownSeals == p.knownSeals
  {
    hide Filed, CurrentIsLast, Good, OnlyLocks, ProtocolState.Gather, ProtocolState.AbandonWith;
    FiledAndLast(p, applied);
    GatherKeeps(p, c, receipts, Status.Abandon);
    GatheredSeals(p, c, receipts, Status.Abandon);
    var gathered := p.Gather(c, receipts, Status.Abandon);
    if gathered.result.Ok? { AbandonWithKeeps(gathered.state, c, gathered.result.value); }
  }

  ghost predicate AllForkFree(ops: seq<Operation>) { forall i :: 0 <= i < |ops| ==> ForkFree(ops[i]) }

  /** Runs without forking bundles have one chain of seals per resource. */
  lemma {:induction false} RunChained(members: Members, epoch: int, ops: seq<Operation>)
    requires AllForkFree(ops)
    ensures var p := Run(Start(members, epoch), ops); Chained(p.currentSeals, p.knownSeals)
  {
    hide Do, ForkFree, Linked, OneSealPerVersion;
    var start := Start(members, epoch);
    RunKeeps(members, epoch, ops);
    if ops == [] {
      NoSeals(start.knownSeals);
    } else {
      hide Good, Start;
      var before, op := ops[..|ops| - 1], ops[|ops| - 1];
      RunChained(members, epoch, before);
      RunKeeps(members, epoch, before);
      StepKeepsPlaces(Run(start, before), AppliedIn(start, before), op);
      LinkedOf(Run(start, ops), AppliedIn(start, ops));
    }
  }

  lemma NoSeals(known: map<Digest, StateSeal>)
    requires known == map[]
    ensures OneSealPerVersion(known)
  {}

  lemma LinkedOf(p: ProtocolState, applied: set<Digest>)
    requires Good(p, applied)
    ensures Linked(p.currentSeals, p.knownSeals)
  {
    hide Linked;
  }

  // ----- Outcomes

  /** Whatever the search finds is the capsule's own successor, although it never compares resource identifiers. */
  lemma FoundIsSuccessor(p: ProtocolState, applied: set<Digest>, c: Capsule, id: Digest)
    requires Good(p, applied) && id in p.knownSeals && p.LooksLikeSuccessor(c, p.knownSeals[id])
    ensures c.body.predecessorId in p.knownSeals
    ensures p.knownSeals[id] == Successor(p.knownSeals[c.body.predecessorId], c.body)
    ensures c.Id() in applied
  {
    var seal := p.knownSeals[id];
    if c.body.predecessorId in p.knownSeals {
      assert p.knownSeals[c.body.predecessorId].version >= 0;
      assert Grown(p.knownSeals, seal);
    }
    hide Filed, AllApplied, OneSealPerVersion, CurrentKnown, FiledSeals;
  }

  /** Closed is reported exactly for the capsules that apply or apply_bundle applied. */
  lemma ClosedExactly(p: ProtocolState, applied: set<Digest>, c: Capsule)
    requires Good(p, applied)
    ensures p.ObservedStatus(c) == Some(Closed) <==> c.Id() in applied
  {
    if c.Id() in applied {
      AppliedLooks(p, applied, c);
    }
    if p.HasSuccessor(c) { SuccessorWasApplied(p, applied, c); }
    hide Good, ProtocolState.HasSuccessor;
  }

  lemma SuccessorWasApplied(p: ProtocolState, applied: set<Digest>, c: Capsule)
    requires Good(p, applied) && p.HasSuccessor(c)
    ensures c.Id() in applied
  {
    hide Good, ProtocolState.LooksLikeSuccessor;
    var id :| id in p.knownSeals && p.LooksLikeSuccessor(c, p.knownSeals[id]);
    FoundIsSuccessor(p, applied, c, id);
  }

  lemma AppliedLooks(p: ProtocolState, applied: set<Digest>, c: Capsule)
    requires Good(p, applied) && c.Id() in applied
    ensures c.Id() in p.closures && p.HasSuccessor(c)
  {
    hide *;
    AppliedSeals(p, applied, c);
    KnownSuccessor(p, c);
  }

  lemma KnownSuccessor(p: ProtocolState, c: Capsule)
    requires c.body.predecessorId in p.knownSeals
    requires var seal := Successor(p.knownSeals[c.body.predecessorId], c.body);
             seal.Id() in p.knownSeals && p.knownSeals[seal.Id()] == seal && seal.resourceId in p.currentSeals
    ensures p.HasSuccessor(c)
  {
    var seal := Successor(p.knownSeals[c.body.predecessorId], c.body);
    assert p.LooksLikeSuccessor(c, p.knownSeals[seal.Id()]);
  }

  /** The successor of an applied capsule is known, and its resource has a current seal. */
  lemma AppliedSeals(p: ProtocolState, applied: set<Digest>, c: Capsule)
    requires Good(p, applied) && c.Id() in applied
    ensures c.Id() in p.closures && c.body.predecessorId in p.knownSeals
    ensures var seal := Successor(p.knownSeals[c.body.predecessorId], c.body);
            seal.Id() in p.knownSeals && p.knownSeals[seal.Id()] == seal && seal.resourceId in p.currentSeals
  {
    hide Filed, OneSealPerVersion, AllGrown, Recorded, CurrentKnown, Successor;
    assert AppliedOn(p.knownSeals, p.closures, c.Id());
    var seal := Successor(p.knownSeals[c.body.predecessorId], c.body);
    assert p.knownSeals[seal.Id()].Id() == seal.Id();
  }

  /** Nothing, then abandoned, then in conflict, then closed. */
  function Rank(status: Option<EctcStatus>): nat {
    match status
    case None => 0
    case Some(Abandoned) => 1
    case Some(Conflict) => 2
    case Some(Closed) => 3
  }

  lemma RankGrows(p: ProtocolState, q: ProtocolState, c: Capsule)
    requires Grows(p, q)
    ensures Rank(p.ObservedStatus(c)) <= Rank(q.ObservedStatus(c))
  {
    if p.HasSuccessor(c) {
      var id :| id in p.knownSeals && p.LooksLikeSuccessor(c, p.knownSeals[id]);
      assert q.LooksLikeSuccessor(c, q.knownSeals[id]);
    }
    if p.InConflict(c) {
      var id :| id in p.conflictEvidence && c.Id() in p.conflictEvidence[id].sides;
      assert q.conflictEvidence[id] == p.conflictEvidence[id];
    }
    hide ProtocolState.LooksLikeSuccessor;
  }

  /** A reported outcome carries the artifact that proves it. */
  ghost predicate Proven(p: ProtocolState, c: Capsule, o: TransitionOutcome) {
    && o.IsEvidenceComplete() && o.capsuleId == c.Id() && o.predecessorId == c.body.predecessorId
    && match o.status
       case Closed =>
         && c.Id() in p.closures && o.evidenceIds == [p.closures[c.Id()].proofId]
         && c.body.predecessorId in p.knownSeals
         && o.successorSealId == Some(Successor(p.knownSeals[c.body.predecessorId], c.body).Id())
         && o.successorSealId.value in p.knownSeals
       case Conflict =>
         && |o.evidenceIds| == 1 && o.evidenceIds[0] in p.conflictEvidence
         && |o.conflictingCapsuleIds| == 1
         && var other := o.conflictingCapsuleIds[0];
         && other != c.Id() && other.CapsuleDigest? && other.body.predecessorId == c.body.predecessorId
         && p.conflictEvidence[o.evidenceIds[0]].sides.Keys == {c.Id(), other}
       case Abandoned => c.Id() in p.abandons && o.evidenceIds == [p.abandons[c.Id()].proofId]
  }

  lemma ConflictIsProven(p: ProtocolState, id: Digest, c: Capsule, other: Digest)
    requires FiledEvidence(p.conflictEvidence) && id in p.conflictEvidence
    requires p.conflictEvidence[id].sides.Keys == {c.Id(), other}
    ensures p.conflictEvidence[id].Id() == id
    ensures other != c.Id() && other.CapsuleDigest? && other.body.predecessorId == c.body.predecessorId
  {
    var sides := p.conflictEvidence[id].sides;
    assert GoodEvidence(p.conflictEvidence[id]);
    assert c.Id() in sides && other in sides;
    assert |sides| == |sides.Keys|;
    PairSize(sides.Keys, c.Id(), other);
  }

  lemma PairSize<T>(s: set<T>, a: T, b: T)
    requires s == {a, b}
    ensures a == b ==> |s| == 1
  {
    if a == b { assert s == {a}; }
  }

  lemma ClosedIsProven(p: ProtocolState, applied: set<Digest>, c: Capsule, o: TransitionOutcome)
    requires Good(p, applied) && p.Observes(c, Some(o)) && o.status == Closed
    ensures Proven(p, c, o)
  {
    hide Good, ProtocolState.LooksLikeSuccessor, Successor;
    var id :| id in p.knownSeals && p.LooksLikeSuccessor(c, p.knownSeals[id])
              && o.successorSealId == Some(p.knownSeals[id].Id());
    FoundIsSuccessor(p, applied, c, id);
    SealFiled(p, applied, id);
  }

  lemma SealFiled(p: ProtocolState, applied: set<Digest>, id: Digest)
    requires Good(p, applied) && id in p.knownSeals
    ensures p.knownSeals[id].Id() == id && FiledEvidence(p.conflictEvidence)
  {
    hide CurrentKnown, CurrentIsLast, OneSealPerVersion, AllGrown, Recorded, AllApplied, FiledEvidence;
  }

  lemma DisputeIsProven(p: ProtocolState, c: Capsule, o: TransitionOutcome)
    requires FiledEvidence(p.conflictEvidence) && p.Observes(c, Some(o)) && o.status == Conflict
    ensures Proven(p, c, o)
  {
    hide FiledEvidence;
    var id :| id in p.conflictEvidence && c.Id() in p.conflictEvidence[id].sides
              && o.evidenceIds == [p.conflictEvidence[id].Id()]
              && p.conflictEvidence[id].sides.Keys == {c.Id(), o.conflictingCapsuleIds[0]};
    ConflictIsProven(p, id, c, o.conflictingCapsuleIds[0]);
  }

  /** Every outcome a node may report is evidence-complete and its evidence is on record. */
  lemma ObservedIsProven(p: ProtocolState, applied: set<Digest>, c: Capsule, o: TransitionOutcome)
    requires Good(p, applied) && p.Observes(c, Some(o))
    ensures Proven(p, c, o)
  {
    assert FiledEvidence(p.conflictEvidence);
    if o.status == Closed {
      hide Good, Proven, ProtocolState.Observes;
      ClosedIsProven(p, applied, c, o);
    } else if o.status == Conflict {
      hide Good, Proven, ProtocolState.Observes;
      DisputeIsProven(p, c, o);
    }
    hide Good, FiledEvidence;
  }

  /**
   What a reported outcome says: a closed capsule's closure and the seal it put; for a conflict the evidence and the other
   capsule that claims the same predecessor; for an abandoned one its proof, and no more.
   */
  lemma ReportedAs(p: ProtocolState, applied: set<Digest>, c: Capsule, o: TransitionOutcome)
    requires Good(p, applied) && p.Observes(c, Some(o))
    ensures o.capsuleId == c.Id() && o.predecessorId == c.body.predecessorId
    ensures o.status.Closed? ==>
              && c.Id() in p.closures && o.evidenceIds == [p.closures[c.Id()].proofId] && o.conflictingCapsuleIds == []
              && exists id :: id in p.knownSeals && o.successorSealId == Some(id)
                              && p.knownSeals[id].capabilityHash == HashOf(c.Id())
                              && p.knownSeals[id].stateRoot == c.body.successorRoot
    ensures o.status.Conflict? ==>
              && o.successorSealId == None && |o.conflictingCapsuleIds| == 1 && o.conflictingCapsuleIds[0] != c.Id()
              && o.conflictingCapsuleIds[0].CapsuleDigest?
              && o.conflictingCapsuleIds[0].body.predecessorId == c.body.predecessorId
              && exists id :: id in p.conflictEvidence && o.evidenceIds == [id]
                              && p.conflictEvidence[id].sides.Keys == {c.Id(), o.conflictingCapsuleIds[0]}
    ensures o.status.Abandoned? ==>
              && c.Id() in p.abandons && o.evidenceIds == [p.abandons[c.Id()].proofId]
              && o.successorSealId == None && o.conflictingCapsuleIds == []
  {
    hide Linked, Recorded, AllApplied, FiledCapsules, FiledLocks, FiledProofs;
    match o.status
    case Closed =>
      var id :| id in p.knownSeals && p.LooksLikeSuccessor(c, p.knownSeals[id]) && o.successorSealId == Some(p.knownSeals[id].Id());
      KnownUnderId(p, applied, id);
      hide FiledEvidence;
    case Conflict =>
      var id :| id in p.conflictEvidence && c.Id() in p.conflictEvidence[id].sides
                && o.evidenceIds == [p.conflictEvidence[id].Id()] && |o.conflictingCapsuleIds| == 1
                && p.conflictEvidence[id].sides.Keys == {c.Id(), o.conflictingCapsuleIds[0]};
      TwoSides(p.conflictEvidence[id], c, o.conflictingCapsuleIds[0]);
    case Abandoned => hide FiledEvidence;
  }

  lemma KnownUnderId(p: ProtocolState, applied: set<Digest>, id: Digest)
    requires Good(p, applied) && id in p.knownSeals
    ensures p.knownSeals[id].Id() == id
  {
    hide Filed, Recorded, AllApplied, CurrentKnown, CurrentIsLast, AllGrown;
  }

  lemma TwoSides(e: ConflictEvidence, c: Capsule, other: Digest)
    requires GoodEvidence(e) && e.sides.Keys == {c.Id(), other}
    ensures other != c.Id() && other.CapsuleDigest? && other.body.predecessorId == c.body.predecessorId
  {
    assert |e.sides| == |e.sides.Keys|;
    assert c.Id() in e.sides && other in e.sides;
  }

  /** The outcome of a capsule over a whole run. */
  lemma OutcomesOverRuns(members: Members, epoch: int, ops: seq<Operation>, more: seq<Operation>, c: Capsule)
    ensures var start := Start(members, epoch);
            var p, q := Run(start, ops), Run(start, ops + more);
            && Rank(p.ObservedStatus(c)) <= Rank(q.ObservedStatus(c))
            && (q.ObservedStatus(c) == Some(Closed) <==> c.Id() in AppliedIn(start, ops + more))
            && Linked(q.currentSeals, q.knownSeals)
            && (AllForkFree(ops + more) ==> Chained(q.currentSeals, q.knownSeals))
            && forall o :: q.Observes(c, Some(o)) ==> Proven(q, c, o)
  {
    hide Run, AppliedIn, Start, Proven, Grows, ProtocolState.Observes, ProtocolState.ObservedStatus;
    var start := Start(members, epoch);
    RunKeeps(members, epoch, ops + more);
    RunGrows(members, epoch, ops, more);
    var p, q, applied := Run(start, ops), Run(start, ops + more), AppliedIn(start, ops + more);
    LinkedOf(q, applied);
    if AllForkFree(ops + more) { RunChained(members, epoch, ops + more); }
    hide Good, AllForkFree, Chained, Linked;
    RankGrows(p, q, c);
    ClosedExactly(q, applied, c);
    forall o | q.Observes(c, Some(o)) ensures Proven(q, c, o) { ObservedIsProven(q, applied, c, o); }
  }

  /** Applying a capsule again right after it was applied returns the same seal and changes nothing. */
  lemma ReapplyChangesNothing(p: ProtocolState, applied: set<Digest>, c: Capsule, proof: Proof)
    requires Good(p, applied) && p.Apply(c, proof).result.Ok?
    ensures var o := p.Apply(c, proof); o.state.Apply(c, proof) == o
  {
    var q := if c.Id() in p.closures then p else p.Register(c, proof).state;
    RegisteredKeeps(p, c, proof, applied);
    hide Good, Grows, ProtocolState.VerifyClosure, ProtocolState.Advance, ProtocolState.Disputed;
    assert q.members == p.members && q.epoch == p.epoch && q.capsules == p.capsules;
    assert p.Apply(c, proof) == q.Advance(c) && c.Id() in q.closures;
    AdvanceAgain(q, applied, c);
    SameVerification(p, q.Advance(c).state, c, proof);
  }

  lemma AdvanceAgain(q: ProtocolState, applied: set<Digest>, c: Capsule)
    requires Good(q, applied) && c.Id() in q.closures && q.Advance(c).result.Ok?
    ensures var o := q.Advance(c);
            && o.state.Advance(c) == o
            && o.state == q.(currentSeals := o.state.currentSeals, knownSeals := o.state.knownSeals)
  {
    hide Filed, Recorded, AllApplied, CurrentIsLast, CurrentKnown, OneSealPerVersion, AllGrown;
  }
}
