/**
 Closing and abandoning with the receipts a caller brings, or with none: the node then signs with every key it has
 loaded, and succeeds exactly when it may take the lock and the keys it has weigh enough.
 */
module Collecting {
  import opened Results
  import opened Model
  import opened Names
  import opened Quorums
  import opened Certificates
  import opened Protocol
  import opened SealChain
  import opened Closing

  function Claim(p: ProtocolState, c: Capsule, kind: Status): Outcome<()>
    requires p.ValidCapsule(c)
  {
    if kind == Accept then p.LockForAccept(c) else p.LockForAbandon(c)
  }

  /** The capsule has the lock, and claiming it again changes nothing. */
  ghost predicate Holds(p: ProtocolState, c: Capsule, kind: Status) {
    && p.ValidCapsule(c) && Claim(p, c, kind) == Outcome(p, Ok(()))
    && c.Id() in p.capsules && p.capsules[c.Id()].body == c.body
  }

  ghost predicate MayClaim(p: ProtocolState, c: Capsule, kind: Status) {
    p.ValidCapsule(c) && Claim(p, c, kind).result.Ok?
  }

  /** The state once the claim is made. */
  function Claimed(p: ProtocolState, c: Capsule, kind: Status): ProtocolState {
    if p.ValidCapsule(c) then Claim(p, c, kind).state else p
  }

  lemma TakenHolds(p: ProtocolState, c: Capsule, kind: Status)
    requires MayClaim(p, c, kind) && !kind.OtherStatus?
    ensures Holds(p.TakeLock(c, kind), c, kind)
  {
    var q := p.TakeLock(c, kind);
    assert q.ValidCapsule(c);
    assert q.locks[c.body.predecessorId] == Lock(c.Id(), c.body.attempt, kind);
    assert q.TakeLock(c, kind) == q;
    hide ProtocolState.RaiseConflict;
  }

  /** A lock the capsule has already is left alone, and its capsule is on file. */
  lemma KeptHolds(p: ProtocolState, c: Capsule)
    requires Filed(p) && MayClaim(p, c, Accept) && Claimed(p, c, Accept) == p
    requires c.body.predecessorId in p.locks && p.locks[c.body.predecessorId].capsuleId == c.Id()
    ensures Holds(p, c, Accept)
  {
    LockedCapsule(p, c.body.predecessorId);
    hide Filed, ProtocolState.LockForAccept, ProtocolState.ValidCapsule;
  }

  /** A claim that goes through takes the lock, or finds that the capsule has it. */
  lemma ClaimCases(p: ProtocolState, c: Capsule, kind: Status)
    requires MayClaim(p, c, kind) && !kind.OtherStatus?
    ensures Claimed(p, c, kind) == p.TakeLock(c, kind)
            || (kind == Accept && Claimed(p, c, kind) == p && c.body.predecessorId in p.locks
                && p.locks[c.body.predecessorId].capsuleId == c.Id())
  {
    hide ProtocolState.RaiseConflict, ProtocolState.TakeLock, ProtocolState.ValidCapsule;
    RaisesAlways(p, c);
  }

  lemma RaisesAlways(p: ProtocolState, c: Capsule)
    ensures forall first :: p.RaiseConflict(first, c).result.Err?
  {}

  lemma ClaimHolds(p: ProtocolState, c: Capsule, kind: Status)
    requires Filed(p) && MayClaim(p, c, kind) && !kind.OtherStatus?
    ensures var q := Claimed(p, c, kind);
            Holds(q, c, kind) && Filed(q) && q == p.(locks := q.locks, capsules := q.capsules)
  {
    ClaimCases(p, c, kind);
    if Claimed(p, c, kind) == p.TakeLock(c, kind) {
      TakenHolds(p, c, kind);
      TakeLockKeepsFiled(p, c, kind);
    } else {
      KeptHolds(p, c);
    }
    hide Filed, Holds, MayClaim, Claimed;
  }

  lemma HolderSigns(p: ProtocolState, m: string, c: Capsule, kind: Status)
    requires Holds(p, c, kind) && m in p.members && !kind.OtherStatus?
    ensures var signed := SignedReceipt(p.members[m].publicKey, m, c.body, kind);
            && p.Witness(m, c, kind) == Outcome(p, if p.members[m].loaded then Ok(signed) else Err(Refused))
            && p.VerifyReceipt(signed)
  {
    hide ProtocolState.LockForAccept, ProtocolState.LockForAbandon;
  }

  lemma ClaimantSigns(p: ProtocolState, m: string, c: Capsule, kind: Status)
    requires Filed(p) && MayClaim(p, c, kind) && m in p.members && !kind.OtherStatus?
    ensures var q, signed := Claimed(p, c, kind), SignedReceipt(p.members[m].publicKey, m, c.body, kind);
            && p.Witness(m, c, kind) == Outcome(q, if p.members[m].loaded then Ok(signed) else Err(Refused))
            && q.VerifyReceipt(signed)
  {
    ClaimHolds(p, c, kind);
    HolderSigns(Claimed(p, c, kind), m, c, kind);
    hide Filed, Holds, ProtocolState.LockForAccept, ProtocolState.LockForAbandon, ProtocolState.ValidCapsule,
         ProtocolState.VerifyReceipt;
  }

  ghost predicate AllLoaded(members: Members, names: seq<string>)
    requires forall i :: 0 <= i < |names| ==> names[i] in members
  {
    forall i :: 0 <= i < |names| ==> members[names[i]].loaded
  }

  /** The receipts of the members whose keys are loaded. */
  function SignedBy(members: Members, names: seq<string>, body: CapsuleBody, kind: Status): seq<WitnessReceipt>
    requires forall i :: 0 <= i < |names| ==> names[i] in members
  {
    if names == [] then []
    else
      var last := names[|names| - 1];
      SignedBy(members, names[..|names| - 1], body, kind) +
      if members[last].loaded then [SignedReceipt(members[last].publicKey, last, body, kind)] else []
  }

  /** One round of collecting, by a node that may take or has the lock. */
  lemma CollectsNext(p: ProtocolState, q: ProtocolState, receipts: seq<WitnessReceipt>, m: string, c: Capsule, kind: Status)
    requires Filed(p) && MayClaim(p, c, kind) && !kind.OtherStatus? && m in p.members && q == Claimed(p, c, kind)
    ensures var signed := SignedReceipt(p.members[m].publicKey, m, c.body, kind);
            var result := if p.members[m].loaded then Ok(receipts + [signed])
                          else if kind == Accept then Err(Refused) else Ok(receipts);
            && p.CollectNext(receipts, m, c, kind) == Outcome(q, result)
            && q.CollectNext(receipts, m, c, kind) == Outcome(q, result)
  {
    ClaimantSigns(p, m, c, kind);
    ClaimHolds(p, c, kind);
    HolderSigns(q, m, c, kind);
    hide Filed, Holds, MayClaim, Claimed, ProtocolState.Witness, ProtocolState.VerifyReceipt;
    assert receipts + [] == receipts;
  }

  lemma LoadedPrefix(members: Members, names: seq<string>)
    requires names != [] && forall i :: 0 <= i < |names| ==> names[i] in members
    ensures AllLoaded(members, names) <==> AllLoaded(members, names[..|names| - 1]) && members[names[|names| - 1]].loaded
  {}

  lemma SignedNext(members: Members, names: seq<string>, body: CapsuleBody, kind: Status)
    requires names != [] && forall i :: 0 <= i < |names| ==> names[i] in members
    ensures var last, before := names[|names| - 1], SignedBy(members, names[..|names| - 1], body, kind);
            SignedBy(members, names, body, kind) ==
            if members[last].loaded then before + [SignedReceipt(members[last].publicKey, last, body, kind)] else before
  {
    var before := SignedBy(members, names[..|names| - 1], body, kind);
    assert before + [] == before;
  }

  lemma {:induction false} CollectClaimed(p: ProtocolState, names: seq<string>, c: Capsule, kind: Status)
    requires Filed(p) && MayClaim(p, c, kind) && !kind.OtherStatus?
    requires forall i :: 0 <= i < |names| ==> names[i] in p.members
    ensures var o := p.Collect(names, c, kind);
            && (if kind == Accept && !AllLoaded(p.members, names) then o.result.Err?
                else o == Outcome(if names == [] then p else Claimed(p, c, kind),
                                  Ok(SignedBy(p.members, names, c.body, kind))))
    decreases |names|
  {
    hide Filed, MayClaim, Claimed, ProtocolState.CollectNext;
    if names != [] {
      var n := |names| - 1;
      CollectClaimed(p, names[..n], c, kind);
      LoadedPrefix(p.members, names);
      hide AllLoaded;
      var before := p.Collect(names[..n], c, kind);
      SignedNext(p.members, names, c.body, kind);
      hide SignedBy;
      if before.result.Ok? { CollectsNext(p, Claimed(p, c, kind), before.result.value, names[n], c, kind); }
    }
  }

  // ----- A claim that is refused

  lemma RefusedStays(p: ProtocolState, c: Capsule, kind: Status, receipts: seq<WitnessReceipt>, m: string)
    requires !MayClaim(p, c, kind) && !kind.OtherStatus?
    ensures var o := p.CollectNext(receipts, m, c, kind);
            && o.state == p.(conflictEvidence := o.state.conflictEvidence) && !MayClaim(o.state, c, kind)
            && (o.result.Ok? ==> o.result.value == receipts)
  {
    hide ProtocolState.VerifyReceipt, MakeConflict;
  }

  lemma {:induction false} CollectRefused(p: ProtocolState, names: seq<string>, c: Capsule, kind: Status)
    requires !MayClaim(p, c, kind) && !kind.OtherStatus?
    ensures var o := p.Collect(names, c, kind);
            && o.state == p.(conflictEvidence := o.state.conflictEvidence) && !MayClaim(o.state, c, kind)
            && (o.result.Ok? ==> o.result.value == [])
    decreases |names|
  {
    hide MayClaim, ProtocolState.CollectNext;
    if names != [] {
      var n := |names| - 1;
      CollectRefused(p, names[..n], c, kind);
      var before := p.Collect(names[..n], c, kind);
      if before.result.Ok? { RefusedStays(before.state, c, kind, before.result.value, names[n]); }
    }
  }

  // ----- What the collected receipts weigh

  function Loaded(members: Members): set<string> { set m | m in members && members[m].loaded }

  function LoadedIn(members: Members, names: seq<string>): set<string> {
    set i | 0 <= i < |names| && names[i] in members && members[names[i]].loaded :: names[i]
  }

  /** Each receipt is signed by the member it names. */
  ghost predicate AllSigned(members: Members, rs: seq<WitnessReceipt>, body: CapsuleBody, kind: Status) {
    forall i :: 0 <= i < |rs| ==>
      rs[i].Witness() in members
      && rs[i] == SignedReceipt(members[rs[i].Witness()].publicKey, rs[i].Witness(), body, kind)
  }

  lemma {:induction false} SignedBySigners(members: Members, names: seq<string>, body: CapsuleBody, kind: Status)
    requires forall i :: 0 <= i < |names| ==> names[i] in members
    ensures AllSigned(members, SignedBy(members, names, body, kind), body, kind)
  {
    if names != [] {
      SignedBySigners(members, names[..|names| - 1], body, kind);
      SignedNext(members, names, body, kind);
      hide SignedBy;
    }
  }

  lemma LoadedNext(members: Members, names: seq<string>)
    requires names != [] && names[|names| - 1] in members
    ensures var last, before := names[|names| - 1], LoadedIn(members, names[..|names| - 1]);
            LoadedIn(members, names) == if members[last].loaded then before + {last} else before
  {
    var before := LoadedIn(members, names[..|names| - 1]);
    assert names == names[..|names| - 1] + [names[|names| - 1]];
    forall m | m in before ensures m in LoadedIn(members, names) {
      var i :| 0 <= i < |names| - 1 && names[..|names| - 1][i] == m;
      assert names[i] == m;
    }
    forall m | m in LoadedIn(members, names) && m != names[|names| - 1] ensures m in before {
      var i :| 0 <= i < |names| && names[i] == m;
      assert names[..|names| - 1][i] == m;
    }
  }

  lemma {:induction false} SignedSpec(members: Members, names: seq<string>, body: CapsuleBody, kind: Status)
    requires forall i :: 0 <= i < |names| ==> names[i] in members
    requires forall i, j :: 0 <= i < j < |names| ==> names[i] != names[j]
    ensures var rs := SignedBy(members, names, body, kind); Distinct(rs) && WitnessSet(rs) == LoadedIn(members, names)
  {
    if names == [] {
      assert WitnessSet([]) == {};
    } else {
      var n := |names| - 1;
      SignedSpec(members, names[..n], body, kind);
      SignedNext(members, names, body, kind);
      LoadedNext(members, names);
      NewName(members, names);
      hide SignedBy, LoadedIn;
      var before := SignedBy(members, names[..n], body, kind);
      if members[names[n]].loaded {
        DistinctAppend(before, SignedReceipt(members[names[n]].publicKey, names[n], body, kind));
      }
      hide Distinct, WitnessSet;
    }
  }

  lemma NewName(members: Members, names: seq<string>)
    requires names != [] && forall i, j :: 0 <= i < j < |names| ==> names[i] != names[j]
    ensures names[|names| - 1] !in LoadedIn(members, names[..|names| - 1])
  {}

  lemma {:induction false} AllCounted(p: ProtocolState, rs: seq<WitnessReceipt>, kind: Status, id: Digest)
    requires AllCount(p, rs, kind, id)
    ensures p.Counting(rs, kind, id) == rs
  {
    hide ProtocolState.Counts;
    if rs != [] {
      AllCounted(p, rs[..|rs| - 1], kind, id);
      assert rs == rs[..|rs| - 1] + [rs[|rs| - 1]];
    }
  }

  lemma SignedCounts(p: ProtocolState, c: Capsule, kind: Status, rs: seq<WitnessReceipt>)
    requires Holds(p, c, kind) && !kind.OtherStatus?
    requires AllSigned(p.members, rs, c.body, kind)
    ensures AllCount(p, rs, kind, c.Id())
  {
    forall i | 0 <= i < |rs| ensures p.Counts(rs[i], kind, c.Id()) {
      HolderSigns(p, rs[i].Witness(), c, kind);
    }
    hide Holds, ProtocolState.Witness, ProtocolState.VerifyReceipt;
  }

  /** All that was collected counts, and weighs what the members with loaded keys weigh. */
  lemma CollectedWeight(p: ProtocolState, c: Capsule, kind: Status)
    requires Filed(p) && MayClaim(p, c, kind) && !kind.OtherStatus?
    ensures var q, names := Claimed(p, c, kind), SortedNames(p.members.Keys);
            && (forall i :: 0 <= i < |names| ==> names[i] in p.members)
            && var rs := SignedBy(p.members, names, c.body, kind);
            ReceiptWeight(q.members, q.Counting(LastReceipts(rs), kind, c.Id())) == Weight(Weights(p.members), Loaded(p.members))
  {
    var q, names := Claimed(p, c, kind), SortedNames(p.members.Keys);
    forall i | 0 <= i < |names| ensures names[i] in p.members { assert names[i] in names; }
    ClaimHolds(p, c, kind);
    hide *;
    SignedSpec(p.members, names, c.body, kind);
    SignedBySigners(p.members, names, c.body, kind);
    var rs := SignedBy(p.members, names, c.body, kind);
    LastReceiptsOfDistinct(rs);
    SignedCounts(q, c, kind, rs);
    AllCounted(q, rs, kind, c.Id());
    ReceiptWeightIsWeight(q.members, rs);
    InLoaded(p.members, names);
  }

  lemma InLoaded(members: Members, names: seq<string>)
    requires forall m :: m in names <==> m in members
    ensures LoadedIn(members, names) == Loaded(members)
  {
    forall m | m in Loaded(members) ensures m in LoadedIn(members, names) {
      var i :| 0 <= i < |names| && names[i] == m;
    }
  }

  lemma NothingCounts(p: ProtocolState, kind: Status, id: Digest)
    ensures ReceiptWeight(p.members, p.Counting(LastReceipts([]), kind, id)) < p.RequiredWeight()
  {}

  // ----- Closing

  /** What the node needs to close the capsule by itself. */
  ghost predicate ClosesAlone(p: ProtocolState, c: Capsule) {
    && MayClaim(p, c, Accept) && !p.Disputed(c.body.predecessorId)
    && (forall m :: m in p.members ==> p.members[m].loaded) && Total(Weights(p.members)) > 0
  }

  lemma TotalIsLoaded(members: Members)
    requires forall m :: m in members ==> members[m].loaded
    ensures Weight(Weights(members), Loaded(members)) == Total(Weights(members))
    ensures Total(Weights(members)) > 0 <==> Total(Weights(members)) >= Threshold(Weights(members))
  {
    assert Loaded(members) == Weights(members).Keys;
    hide Weight;
  }

  lemma NamesLoaded(members: Members)
    ensures var names := SortedNames(members.Keys);
            && (forall i :: 0 <= i < |names| ==> names[i] in members)
            && (AllLoaded(members, names) <==> forall m :: m in members ==> members[m].loaded)
  {
    hide SortedNames;
    var names := SortedNames(members.Keys);
    forall i | 0 <= i < |names| ensures names[i] in members { assert names[i] in names; }
    if AllLoaded(members, names) {
      forall m | m in members ensures members[m].loaded { assert m in names; }
    }
  }

  ghost predicate EveryKey(members: Members) { forall m :: m in members ==> members[m].loaded }

  /** What a node that may take the lock collects for closing. */
  lemma GatheredToClose(p: ProtocolState, c: Capsule)
    requires Filed(p) && MayClaim(p, c, Accept)
    ensures var names, gathered := SortedNames(p.members.Keys), p.Gather(c, [], Accept);
            && (forall i :: 0 <= i < |names| ==> names[i] in p.members)
            && if !EveryKey(p.members) then gathered.result.Err?
               else gathered == Outcome(if p.members == map[] then p else Claimed(p, c, Accept),
                                        Ok(SignedBy(p.members, names, c.body, Accept)))
  {
    NamesLoaded(p.members);
    NoNames(p.members);
    CollectClaimed(p, SortedNames(p.members.Keys), c, Accept);
    hide Filed, MayClaim, Claimed, ProtocolState.Collect, SignedBy, SortedNames, AllLoaded;
  }

  lemma NoNames(members: Members)
    ensures SortedNames(members.Keys) == [] <==> members == map[]
  {
    hide SortedNames;
    assert members.Keys == {} <==> members == map[];
    assert SortedNames(members.Keys) == [] <==> |members.Keys| == 0;
  }

  /** The node that has the lock and all receipts closes if they weigh anything and nothing is disputed. */
  lemma ClosesClaimed(p: ProtocolState, c: Capsule, rs: seq<WitnessReceipt>)
    requires Filed(p) && MayClaim(p, c, Accept) && EveryKey(p.members)
    requires var q := Claimed(p, c, Accept);
             ReceiptWeight(q.members, q.Counting(LastReceipts(rs), Accept, c.Id())) == Weight(Weights(p.members), Loaded(p.members))
    ensures var q := Claimed(p, c, Accept);
            && (q.CloseWith(c, rs).result.Ok? <==> Total(Weights(p.members)) > 0 && !p.Disputed(c.body.predecessorId))
            && (q.CloseWith(c, rs).result.Ok? ==>
                  q.VerifyClosure(c, q.CloseWith(c, rs).result.value) && c.Id() in q.CloseWith(c, rs).state.closures)
  {
    ClaimHolds(p, c, Accept);
    TotalIsLoaded(p.members);
    hide Filed, Holds, Claimed, MayClaim, EveryKey, ProtocolState.CloseWith, ProtocolState.VerifyClosure,
         ProtocolState.Counting, LastReceipts, ReceiptWeight, Weight, Loaded, Weights;
    CloseWithExactly(Claimed(p, c, Accept), c, rs);
  }

  lemma WeightlessTotal(members: Members)
    requires members == map[]
    ensures Total(Weights(members)) == 0
  {
    assert Weights(members).Keys == {};
  }

  lemma NoReceiptsFail(p: ProtocolState, c: Capsule)
    ensures p.CloseWith(c, []).result.Err? && p.AbandonWith(c, []).result.Err?
  {
    NothingCounts(p, Accept, c.Id());
    NothingCounts(p, Abandon, c.Id());
    hide ProtocolState.Counting, LastReceipts, ReceiptWeight, ProtocolState.RequiredWeight;
  }

  lemma NothingSigned(members: Members, body: CapsuleBody, kind: Status)
    ensures SignedBy(members, [], body, kind) == []
  {}

  /** Registering a closure takes nothing from what makes it valid. */
  lemma ClosedVerifies(p: ProtocolState, c: Capsule, receipts: seq<WitnessReceipt>)
    requires Filed(p)
    ensures var o := p.CloseWith(c, receipts);
            o.result.Ok? ==> o.state.VerifyClosure(c, o.result.value) && c.Id() in o.state.closures
  {
    CloseWithExactly(p, c, receipts);
    var o := p.CloseWith(c, receipts);
    hide Filed, ProtocolState.Counting, LastReceipts, ReceiptWeight, CreateProof, ProtocolState.Disputed,
         ProtocolState.VerifyClosure, ProtocolState.RequiredWeight;
    if o.result.Ok? {
      assert o.state == p.(closures := o.state.closures);
      StillVerifies(p, o.state, c, o.result.value);
    }
  }

  lemma StillVerifies(p: ProtocolState, q: ProtocolState, c: Capsule, proof: Proof)
    requires q == p.(closures := q.closures) && p.VerifyClosure(c, proof)
    ensures q.VerifyClosure(c, proof)
  {
    var unique := LastReceipts(proof.receipts);
    hide LastReceipts, ReceiptWeight, SortByWitness, Signers, ReceiptIds, Weights, Threshold;
    forall i | 0 <= i < |unique| ensures q.Counts(unique[i], Accept, c.Id()) {
      assert p.Counts(unique[i], Accept, c.Id());
    }
  }

  lemma CloseAlone(p: ProtocolState, c: Capsule)
    requires Filed(p) && p.ValidCapsule(c)
    ensures p.Close(c, []).result.Ok? <==> ClosesAlone(p, c)
    ensures var o := p.Close(c, []); o.result.Ok? ==> o.state.VerifyClosure(c, o.result.value) && c.Id() in o.state.closures
  {
    var names, gathered := SortedNames(p.members.Keys), p.Gather(c, [], Accept);
    hide Filed, MayClaim, Claimed, ProtocolState.CloseWith, SortedNames, ProtocolState.Collect, ProtocolState.ValidCapsule,
         Holds, ProtocolState.VerifyClosure, ProtocolState.Disputed, SignedBy, ProtocolState.Counting, LastReceipts, ReceiptWeight, Weight;
    if !MayClaim(p, c, Accept) {
      CollectRefused(p, names, c, Accept);
      NoReceiptsFail(gathered.state, c);
    } else {
      GatheredToClose(p, c);
      if p.members == map[] {
        WeightlessTotal(p.members);
        NoNames(p.members);
        NothingSigned(p.members, c.body, Accept);
        NoReceiptsFail(p, c);
      } else if EveryKey(p.members) {
        CollectedWeight(p, c, Accept);
        ClosesClaimed(p, c, SignedBy(p.members, names, c.body, Accept));
        ClaimHolds(p, c, Accept);
        ClosedVerifies(Claimed(p, c, Accept), c, SignedBy(p.members, names, c.body, Accept));
      }
    }
  }

  lemma InvalidStays(p: ProtocolState, c: Capsule)
    requires !p.ValidCapsule(c)
    ensures !ClosesAlone(p, c)
  {}

  /**
   close succeeds exactly on a valid capsule, when nothing is disputed and, with receipts, the counted ones weigh enough;
   without any, the node may take the lock and has every member's key, of some weight.
   */
  lemma CloseSucceedsExactly(p: ProtocolState, c: Capsule, receipts: seq<WitnessReceipt>)
    requires Filed(p)
    ensures p.Close(c, receipts).result.Ok? <==>
            if receipts == [] then ClosesAlone(p, c)
            else p.ValidCapsule(c) && !p.Disputed(c.body.predecessorId)
                 && ReceiptWeight(p.members, p.Counting(LastReceipts(receipts), Accept, c.Id())) >= p.RequiredWeight()
    ensures var o := p.Close(c, receipts);
            o.result.Ok? ==> o.state.VerifyClosure(c, o.result.value) && c.Id() in o.state.closures
  {
    hide ProtocolState.VerifyClosure, ClosesAlone, Filed, Claimed, ProtocolState.CloseWith, ProtocolState.ValidCapsule,
         ProtocolState.Disputed, ProtocolState.Counting, LastReceipts, ReceiptWeight, ProtocolState.RequiredWeight;
    if p.ValidCapsule(c) {
      if receipts == [] {
        CloseAlone(p, c);
      } else {
        CloseWithExactly(p, c, receipts);
        ClosedVerifies(p, c, receipts);
      }
    } else {
      InvalidStays(p, c);
    }
  }

  // ----- Abandoning

  /** What the node needs to abandon the capsule by itself. */
  ghost predicate AbandonsAlone(p: ProtocolState, c: Capsule) {
    MayClaim(p, c, Abandon) && Weight(Weights(p.members), Loaded(p.members)) >= p.RequiredWeight()
  }

  lemma GatheredToAbandon(p: ProtocolState, c: Capsule)
    requires Filed(p) && MayClaim(p, c, Abandon)
    ensures var names := SortedNames(p.members.Keys);
            && (forall i :: 0 <= i < |names| ==> names[i] in p.members)
            && p.Gather(c, [], Abandon) == Outcome(if p.members == map[] then p else Claimed(p, c, Abandon),
                                                   Ok(SignedBy(p.members, names, c.body, Abandon)))
  {
    NamesLoaded(p.members);
    NoNames(p.members);
    CollectClaimed(p, SortedNames(p.members.Keys), c, Abandon);
    hide Filed, MayClaim, Claimed, ProtocolState.Collect, SignedBy, SortedNames, AllLoaded;
  }

  lemma NoMembersNoWeight(p: ProtocolState)
    requires p.members == map[]
    ensures Weight(Weights(p.members), Loaded(p.members)) < p.RequiredWeight()
  {
    assert Loaded(p.members) == {};
  }

  lemma AbandonAlone(p: ProtocolState, c: Capsule)
    requires Filed(p) && c.Id() !in p.closures
    ensures p.AbandonCapsule(c, []).result.Ok? <==> AbandonsAlone(p, c)
  {
    var names, gathered := SortedNames(p.members.Keys), p.Gather(c, [], Abandon);
    hide Filed, MayClaim, Claimed, ProtocolState.AbandonWith, SortedNames, ProtocolState.Collect, ProtocolState.ValidCapsule,
         SignedBy, ProtocolState.Counting, LastReceipts, ReceiptWeight, Weight, Holds, Loaded, Weights;
    if !MayClaim(p, c, Abandon) {
      CollectRefused(p, names, c, Abandon);
      NoReceiptsFail(gathered.state, c);
    } else {
      GatheredToAbandon(p, c);
      if p.members == map[] {
        NoMembersNoWeight(p);
        NoNames(p.members);
        NothingSigned(p.members, c.body, Abandon);
        NoReceiptsFail(p, c);
      } else {
        CollectedWeight(p, c, Abandon);
        ClaimHolds(p, c, Abandon);
        AbandonWithExactly(Claimed(p, c, Abandon), c, SignedBy(p.members, names, c.body, Abandon));
      }
    }
  }

  /**
   abandon succeeds exactly on a capsule that is not closed when, with receipts, the counted ones weigh enough; without
   any, the node may take the lock and the members whose keys it has weigh enough.
   */
  lemma AbandonSucceedsExactly(p: ProtocolState, c: Capsule, receipts: seq<WitnessReceipt>)
    requires Filed(p)
    ensures p.AbandonCapsule(c, receipts).result.Ok? <==>
            c.Id() !in p.closures
            && if receipts == [] then AbandonsAlone(p, c)
               else ReceiptWeight(p.members, p.Counting(LastReceipts(receipts), Abandon, c.Id())) >= p.RequiredWeight()
  {
    hide AbandonsAlone, Filed, ProtocolState.AbandonWith, ProtocolState.Counting, LastReceipts, ReceiptWeight,
         ProtocolState.RequiredWeight;
    if c.Id() !in p.closures {
      if receipts == [] { AbandonAlone(p, c); } else { AbandonWithExactly(p, c, receipts); }
    }
  }
}
