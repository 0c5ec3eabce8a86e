/**
 A bundle that forks, in a run from an empty node: one member signed two capsules for the same predecessor, the node
 closed both on those receipts, and the bundle of the two passes every check.
 */
module ForkingBundle {
  import opened Results
  import opened Model
  import opened Quorums
  import opened Certificates
  import opened Protocol
  import opened SealChain
  import opened Closing
  import opened ProtocolRuns
  import opened Bundles
  import opened Outcomes
  import opened Collecting
  import opened OneMember

  function Left(): Capsule { CapsuleTo(Text("left"), Text("rule")) }

  function Right(): Capsule { CapsuleTo(Text("right"), Text("rule")) }

  function ReceiptFor(c: Capsule): WitnessReceipt { SignedReceipt("key", "member", c.body, Accept) }

  /** The node after it was shown both capsules. */
  function Shown(): ProtocolState { Node().StoreCapsule(Left()).StoreCapsule(Right()) }

  /** A node of this committee that can close the capsule on the member's receipt. */
  ghost predicate CanClose(p: ProtocolState, c: Capsule) {
    && Filed(p) && p.members == MEMBERS && p.ValidCapsule(c) && p.conflictEvidence == map[]
    && c.Id() in p.capsules && c.Id() !in p.closures
  }

  lemma ReceiptCounts(p: ProtocolState, c: Capsule)
    requires CanClose(p, c)
    ensures p.Counts(ReceiptFor(c), Accept, c.Id())
  {
    assert p.capsules[c.Id()].Id() == c.Id();
    hide FiledLocks, FiledProofs, FiledEvidence;
  }

  lemma OneReceiptWeighs(r: WitnessReceipt)
    requires r.Witness() == "member"
    ensures ReceiptWeight(MEMBERS, [r]) == 1
  {
    assert [r][..0] == [];
    assert ReceiptWeight(MEMBERS, []) == 0;
  }

  lemma OneReceiptCounts(p: ProtocolState, c: Capsule)
    requires CanClose(p, c)
    ensures p.Counting(LastReceipts([ReceiptFor(c)]), Accept, c.Id()) == [ReceiptFor(c)]
    ensures ReceiptWeight(p.members, [ReceiptFor(c)]) == 1
  {
    var r := ReceiptFor(c);
    ReceiptCounts(p, c);
    OneReceiptWeighs(r);
    LastReceiptsOfDistinct([r]);
    hide CanClose, ProtocolState.Counts, ProtocolState.Counting, LastReceipts, ReceiptWeight;
    AllCounted(p, [r], Accept, c.Id());
    assert p.members == MEMBERS by { SameMembers(p, c); }
  }

  lemma SameMembers(p: ProtocolState, c: Capsule)
    requires CanClose(p, c)
    ensures p.members == MEMBERS
  {
    hide Filed;
  }

  lemma ClosesOnReceipt(p: ProtocolState, c: Capsule)
    requires CanClose(p, c)
    ensures var o := p.Close(c, [ReceiptFor(c)]);
            && o.result.Ok? && o.result.value.capsuleId == c.Id() && p.VerifyClosure(c, o.result.value)
            && o.state == p.(closures := p.closures[c.Id() := o.result.value])
  {
    OneReceiptCounts(p, c);
    MemberWeight();
    hide Filed, ProtocolState.Counting, LastReceipts, ReceiptWeight, CreateProof, ProtocolState.VerifyClosure,
         ProtocolState.ValidCapsule, Weights, Total;
    assert !p.Disputed(c.body.predecessorId);
    CloseWithExactly(p, c, [ReceiptFor(c)]);
    var o := p.CloseWith(c, [ReceiptFor(c)]);
    VerifiedMatches(p, c, o.result.value);
  }

  lemma ShownCanClose()
    ensures CanClose(Shown(), Left()) && CanClose(Shown(), Right()) && Left().Id() != Right().Id()
    ensures Shown().knownSeals == Node().knownSeals && Shown().currentSeals == Node().currentSeals
  {
    NodeReached();
    NodeMayClose(Text("left"), Text("rule"));
    NodeMayClose(Text("right"), Text("rule"));
    StoreKeepsFiled(Node(), Left());
    StoreKeepsFiled(Node().StoreCapsule(Left()), Right());
    assert Left().body.successorRoot != Right().body.successorRoot;
    hide Filed, ClosesAlone;
  }

  // ----- The run

  const SHOWING: seq<Operation> := [CREATION, Operation.StoreCapsule(Left()), Operation.StoreCapsule(Right())]

  function ClosingOf(c: Capsule): Operation { Operation.Close(c, [ReceiptFor(c)]) }

  lemma RunNext(p: ProtocolState, ops: seq<Operation>, op: Operation)
    ensures Run(p, ops + [op]) == Do(Run(p, ops), op)
  {
    assert (ops + [op])[..|ops|] == ops && (ops + [op])[|ops|] == op;
  }

  lemma ShownReached()
    ensures Run(Start(MEMBERS, 0), SHOWING) == Shown()
  {
    NodeReached();
    hide Run, Start, Node, Left, Right;
    RunNext(Start(MEMBERS, 0), [CREATION], Operation.StoreCapsule(Left()));
    RunNext(Start(MEMBERS, 0), [CREATION] + [Operation.StoreCapsule(Left())], Operation.StoreCapsule(Right()));
    assert [CREATION] + [Operation.StoreCapsule(Left())] + [Operation.StoreCapsule(Right())] == SHOWING;
  }

  lemma StillCanClose(p: ProtocolState, q: ProtocolState, closed: Capsule, c: Capsule)
    requires CanClose(p, closed) && CanClose(p, c) && c.Id() != closed.Id()
    requires q.closures.Keys == p.closures.Keys + {closed.Id()} && q == p.(closures := q.closures) && Filed(q)
    ensures CanClose(q, c)
  {
    hide Filed;
  }

  /** The first capsule is closed and the second can still be. */
  lemma FirstCloses(p: ProtocolState, a: Capsule, b: Capsule) returns (proof: Proof)
    requires CanClose(p, a) && CanClose(p, b) && a.Id() != b.Id()
    ensures p.Close(a, [ReceiptFor(a)]) == Outcome(p.(closures := p.closures[a.Id() := proof]), Ok(proof))
    ensures CanClose(p.(closures := p.closures[a.Id() := proof]), b)
    ensures proof.capsuleId == a.Id() && p.VerifyClosure(a, proof)
  {
    IsFiled(p, a);
    hide *;
    ClosesOnReceipt(p, a);
    proof := p.Close(a, [ReceiptFor(a)]).result.value;
    ProofFiledIn(p, a, proof);
    StillCanClose(p, p.(closures := p.closures[a.Id() := proof]), a, b);
  }

  /** Both proofs are on file and valid. */
  ghost predicate HasBoth(q: ProtocolState, left: Proof, right: Proof) {
    && Left().Id() in q.closures && q.closures[Left().Id()] == left && left.capsuleId == Left().Id()
    && Right().Id() in q.closures && q.closures[Right().Id()] == right && right.capsuleId == Right().Id()
    && q.VerifyClosure(Left(), left) && q.VerifyClosure(Right(), right)
  }

  function ClosedBoth(p: ProtocolState, a: Capsule, left: Proof, b: Capsule, right: Proof): ProtocolState {
    p.(closures := p.closures[a.Id() := left][b.Id() := right])
  }

  /** The node closes both capsules. */
  lemma BothClose() returns (left: Proof, right: Proof)
    ensures var q := ClosedBoth(Shown(), Left(), left, Right(), right);
            && q == Run(Start(MEMBERS, 0), SHOWING + [ClosingOf(Left())] + [ClosingOf(Right())])
            && HasBoth(q, left, right)
  {
    ShownReached();
    ShownCanClose();
    hide *;
    left := FirstCloses(Shown(), Left(), Right());
    var p := Shown().(closures := Shown().closures[Left().Id() := left]);
    ClosesOnReceipt(p, Right());
    right := p.Close(Right(), [ReceiptFor(Right())]).result.value;
    ClosedTwice(Shown(), Left(), left, Right(), right);
    RunClosings(p, left, right);
    BothFiled(Shown(), left, right);
  }

  lemma DoCloses(p: ProtocolState, c: Capsule)
    ensures Do(p, ClosingOf(c)) == p.Close(c, [ReceiptFor(c)]).state
  {
    hide ProtocolState.Close, ReceiptFor;
  }

  lemma ClosedTwice(p: ProtocolState, a: Capsule, left: Proof, b: Capsule, right: Proof)
    ensures var q := p.(closures := p.closures[a.Id() := left]);
            q.(closures := q.closures[b.Id() := right]) == ClosedBoth(p, a, left, b, right)
  {}

  lemma RunClosings(p: ProtocolState, left: Proof, right: Proof)
    requires Run(Start(MEMBERS, 0), SHOWING) == Shown()
    requires Shown().Close(Left(), [ReceiptFor(Left())]).state == p
    requires p.Close(Right(), [ReceiptFor(Right())]).state == ClosedBoth(Shown(), Left(), left, Right(), right)
    ensures Run(Start(MEMBERS, 0), SHOWING + [ClosingOf(Left())] + [ClosingOf(Right())])
         == ClosedBoth(Shown(), Left(), left, Right(), right)
  {
    hide *;
    DoCloses(Shown(), Left());
    DoCloses(p, Right());
    RunNext(Start(MEMBERS, 0), SHOWING, ClosingOf(Left()));
    RunNext(Start(MEMBERS, 0), SHOWING + [ClosingOf(Left())], ClosingOf(Right()));
  }

  lemma BothFiled(p: ProtocolState, left: Proof, right: Proof)
    requires Left().Id() != Right().Id() && left.capsuleId == Left().Id() && right.capsuleId == Right().Id()
    requires p.VerifyClosure(Left(), left)
    requires p.(closures := p.closures[Left().Id() := left]).VerifyClosure(Right(), right)
    ensures HasBoth(ClosedBoth(p, Left(), left, Right(), right), left, right)
  {
    var q := ClosedBoth(p, Left(), left, Right(), right);
    hide ProtocolState.VerifyClosure, Left, Right;
    StillVerifies(p, q, Left(), left);
    StillVerifies(p.(closures := p.closures[Left().Id() := left]), q, Right(), right);
  }

  lemma IsFiled(p: ProtocolState, c: Capsule)
    requires CanClose(p, c)
    ensures Filed(p)
  {
    hide Filed;
  }

  lemma ProofFiledIn(p: ProtocolState, c: Capsule, proof: Proof)
    requires Filed(p) && proof.capsuleId == c.Id()
    ensures Filed(p.(closures := p.closures[c.Id() := proof]))
  {
    ProofFiled(p.closures, c.Id(), proof);
    hide FiledProofs, FiledLocks, FiledCapsules, FiledEvidence;
  }

  /** The bundle of both goes through, and the resource then has two seals of version 1. */
  lemma ForkGoesThrough() returns (bundle: BundleClosure, entries: seq<Entry>)
    ensures var p := Run(Start(MEMBERS, 0), SHOWING + [ClosingOf(Left())] + [ClosingOf(Right())]);
            var o := p.ApplyBundle(bundle, entries);
            o.result.Ok? && !Chained(o.state.currentSeals, o.state.knownSeals)
  {
    var left, right := BothClose();
    var q := ClosedBoth(Shown(), Left(), left, Right(), right);
    ShownCanClose();
    NodeSeals();
    hide ProtocolState.VerifyClosure, CanClose, Run, ProtocolState.ApplyBundle, ProtocolState.BundleReady, Shown, Node,
         NoForkIn, Chained;
    entries := [(Left(), left), (Right(), right)];
    bundle := BundleClosure("bundle", multiset(ProofIds(entries)));
    BundlePasses(q, bundle, entries);
    Forks(entries, left, right);
    hide *;
    ForkBreaksChain(q, bundle, entries);
    BrokenChain(q.ApplyBundle(bundle, entries).state);
    PassingApplies(q, bundle, entries);
  }

  lemma NodeSeals()
    ensures Node().currentSeals == map["resource" := GENESIS] && Node().knownSeals == map[GENESIS.Id() := GENESIS]
  {}

  lemma BundlePasses(q: ProtocolState, bundle: BundleClosure, entries: seq<Entry>)
    requires |entries| == 2 && bundle == BundleClosure("bundle", multiset(ProofIds(entries)))
    requires q.currentSeals == map["resource" := GENESIS]
    requires forall i :: 0 <= i < 2 ==>
               && entries[i].0.Id() in q.closures && q.closures[entries[i].0.Id()] == entries[i].1
               && entries[i].1.capsuleId == entries[i].0.Id() && q.VerifyClosure(entries[i].0, entries[i].1)
               && entries[i].0.body.predecessorId == GENESIS.Id()
    ensures q.BundleReady(bundle, entries)
  {
    hide ProtocolState.VerifyClosure, ProofIds;
    assert q.currentSeals["resource"] == GENESIS;
  }

  lemma Forks(entries: seq<Entry>, left: Proof, right: Proof)
    requires entries == [(Left(), left), (Right(), right)]
    ensures !NoForkIn(Elements(entries))
  {
    assert entries[0] in Elements(entries) && entries[1] in Elements(entries);
    assert Left().body.successorRoot != Right().body.successorRoot;
  }

  lemma BrokenChain(p: ProtocolState)
    requires !OneSealPerVersion(p.knownSeals)
    ensures !Chained(p.currentSeals, p.knownSeals)
  {}

  lemma PassingApplies(p: ProtocolState, bundle: BundleClosure, entries: seq<Entry>)
    requires p.BundleReady(bundle, entries)
    ensures p.ApplyBundle(bundle, entries).result.Ok?
  {}
}
