/**
 Receipts keyed by witness, and the proofs built from them (mosaic/model.py).
 */
module Certificates {
  import opened Results
  import opened Model
  import opened Names
  import opened Quorums

  type Members = map<string, Member>

  datatype Error = CapsuleInvalid | ClosureInvalid | ConflictDetected(evidence: ConflictEvidence) | Refused | KeyError

  // ----- A dict keyed by witness, as the list of its values

  /** Where the first receipt of the witness stands, or -1. */
  function Position(rs: seq<WitnessReceipt>, name: string): (p: int)
    ensures -1 <= p < |rs|
    ensures p >= 0 ==> rs[p].Witness() == name
    ensures p < 0 ==> forall i :: 0 <= i < |rs| ==> rs[i].Witness() != name
  {
    if rs == [] then -1
    else if rs[|rs| - 1].Witness() == name && Position(rs[..|rs| - 1], name) < 0 then |rs| - 1
    else Position(rs[..|rs| - 1], name)
  }

  function Put(rs: seq<WitnessReceipt>, r: WitnessReceipt): seq<WitnessReceipt> {
    var p := Position(rs, r.Witness());
    if p < 0 then rs + [r] else rs[p := r]
  }

  /** The values of {r.witness_id: r for r in rs}: the last receipt of each witness, where its first one stood. */
  function LastReceipts(rs: seq<WitnessReceipt>): seq<WitnessReceipt> {
    if rs == [] then [] else Put(LastReceipts(rs[..|rs| - 1]), rs[|rs| - 1])
  }

  ghost predicate Distinct(rs: seq<WitnessReceipt>) {
    forall i, j :: 0 <= i < j < |rs| ==> rs[i].Witness() != rs[j].Witness()
  }

  ghost function WitnessSet(rs: seq<WitnessReceipt>): set<string> { set i | 0 <= i < |rs| :: rs[i].Witness() }

  lemma PutSpec(rs: seq<WitnessReceipt>, r: WitnessReceipt)
    requires Distinct(rs)
    ensures Distinct(Put(rs, r))
    ensures WitnessSet(Put(rs, r)) == WitnessSet(rs) + {r.Witness()}
    ensures forall x :: x in Put(rs, r) ==> x == r || x in rs
    ensures r in Put(rs, r)
  {
    hide Position;
    var p, s := Position(rs, r.Witness()), Put(rs, r);
    if p < 0 {
      assert s[|rs|] == r;
      assert forall i :: 0 <= i < |rs| ==> s[i] == rs[i];
    } else {
      assert s[p] == r;
      assert forall i :: 0 <= i < |rs| ==> s[i].Witness() == rs[i].Witness();
    }
  }

  lemma WitnessSetAppend(rs: seq<WitnessReceipt>, r: WitnessReceipt)
    ensures WitnessSet(rs + [r]) == WitnessSet(rs) + {r.Witness()}
  {
    assert (rs + [r])[|rs|] == r;
    assert forall i :: 0 <= i < |rs| ==> (rs + [r])[i] == rs[i];
  }

  /** Each witness keeps exactly one receipt, one of those given. */
  lemma {:induction false} LastReceiptsSpec(rs: seq<WitnessReceipt>)
    ensures Distinct(LastReceipts(rs))
    ensures WitnessSet(LastReceipts(rs)) == WitnessSet(rs)
    ensures forall x :: x in LastReceipts(rs) ==> x in rs
  {
    if rs != [] {
      var n := |rs| - 1;
      hide Put, Position, Distinct, WitnessSet;
      LastReceiptsSpec(rs[..n]);
      PutSpec(LastReceipts(rs[..n]), rs[n]);
      WitnessSetAppend(rs[..n], rs[n]);
      assert rs == rs[..n] + [rs[n]];
    }
  }

  lemma {:induction false} LastReceiptsOfDistinct(rs: seq<WitnessReceipt>)
    requires Distinct(rs)
    ensures LastReceipts(rs) == rs
  {
    if rs != [] {
      var n := |rs| - 1;
      LastReceiptsOfDistinct(rs[..n]);
      assert Position(rs[..n], rs[n].Witness()) < 0;
      assert rs == rs[..n] + [rs[n]];
    }
  }

  // ----- Sorting by witness identifier

  predicate Precedes(a: WitnessReceipt, b: WitnessReceipt) { StringLess(a.Witness(), b.Witness()) }

  function Insert(rs: seq<WitnessReceipt>, r: WitnessReceipt): seq<WitnessReceipt> {
    if rs == [] || !Precedes(r, rs[|rs| - 1]) then rs + [r]
    else Insert(rs[..|rs| - 1], r) + [rs[|rs| - 1]]
  }

  /** sorted(rs, key=witness_id), which is stable. */
  function SortByWitness(rs: seq<WitnessReceipt>): seq<WitnessReceipt> {
    if rs == [] then [] else Insert(SortByWitness(rs[..|rs| - 1]), rs[|rs| - 1])
  }

  ghost predicate Sorted(rs: seq<WitnessReceipt>) {
    forall i :: 0 < i < |rs| ==> !Precedes(rs[i], rs[i - 1])
  }

  lemma {:induction false} InsertKeeps(rs: seq<WitnessReceipt>, r: WitnessReceipt)
    ensures multiset(Insert(rs, r)) == multiset(rs) + multiset{r}
  {
    hide Precedes;
    if rs != [] && Precedes(r, rs[|rs| - 1]) {
      var n := |rs| - 1;
      InsertKeeps(rs[..n], r);
      assert rs == rs[..n] + [rs[n]];
    }
  }

  lemma {:induction false} InsertSorted(rs: seq<WitnessReceipt>, r: WitnessReceipt)
    requires Sorted(rs)
    ensures Sorted(Insert(rs, r))
    ensures |Insert(rs, r)| == |rs| + 1
    ensures Insert(rs, r)[|rs|] == r || (rs != [] && Insert(rs, r)[|rs|] == rs[|rs| - 1])
  {
    if rs != [] && Precedes(r, rs[|rs| - 1]) {
      var n := |rs| - 1;
      StringLessAsymmetric(r.Witness(), rs[n].Witness());
      assert !Precedes(rs[n], r);
      hide Precedes;
      InsertSorted(rs[..n], r);
      var s := Insert(rs[..n], r);
      assert Insert(rs, r) == s + [rs[n]];
      assert !Precedes(rs[n], s[n]);
    }
  }

  lemma {:induction false} SortSpec(rs: seq<WitnessReceipt>)
    ensures Sorted(SortByWitness(rs))
    ensures multiset(SortByWitness(rs)) == multiset(rs)
  {
    if rs != [] {
      hide Sorted, Insert, Precedes;
      var n := |rs| - 1;
      SortSpec(rs[..n]);
      InsertKeeps(SortByWitness(rs[..n]), rs[n]);
      InsertSorted(SortByWitness(rs[..n]), rs[n]);
      assert rs == rs[..n] + [rs[n]];
    }
  }

  lemma {:induction false} SortOfSorted(rs: seq<WitnessReceipt>)
    requires Sorted(rs)
    ensures SortByWitness(rs) == rs
  {
    if rs != [] {
      var n := |rs| - 1;
      SortOfSorted(rs[..n]);
      assert rs == rs[..n] + [rs[n]];
    }
  }

  lemma {:induction false} InsertDistinct(rs: seq<WitnessReceipt>, r: WitnessReceipt)
    requires Distinct(rs) && r.Witness() !in WitnessSet(rs)
    ensures Distinct(Insert(rs, r)) && WitnessSet(Insert(rs, r)) == WitnessSet(rs) + {r.Witness()}
  {
    hide Precedes;
    if rs == [] || !Precedes(r, rs[|rs| - 1]) {
      DistinctAppend(rs, r);
    } else {
      var n := |rs| - 1;
      assert rs == rs[..n] + [rs[n]];
      DistinctPrefix(rs);
      InsertDistinct(rs[..n], r);
      DistinctAppend(Insert(rs[..n], r), rs[n]);
    }
  }

  lemma DistinctAppend(rs: seq<WitnessReceipt>, r: WitnessReceipt)
    requires Distinct(rs) && r.Witness() !in WitnessSet(rs)
    ensures Distinct(rs + [r]) && WitnessSet(rs + [r]) == WitnessSet(rs) + {r.Witness()}
  {
    WitnessSetAppend(rs, r);
  }

  lemma DistinctPrefix(rs: seq<WitnessReceipt>)
    requires rs != [] && Distinct(rs)
    ensures Distinct(rs[..|rs| - 1]) && rs[|rs| - 1].Witness() !in WitnessSet(rs[..|rs| - 1])
    ensures WitnessSet(rs) == WitnessSet(rs[..|rs| - 1]) + {rs[|rs| - 1].Witness()}
  {
    assert rs == rs[..|rs| - 1] + [rs[|rs| - 1]];
    WitnessSetAppend(rs[..|rs| - 1], rs[|rs| - 1]);
  }

  lemma {:induction false} SortDistinct(rs: seq<WitnessReceipt>)
    requires Distinct(rs)
    ensures Distinct(SortByWitness(rs)) && WitnessSet(SortByWitness(rs)) == WitnessSet(rs)
  {
    if rs != [] {
      hide Distinct, WitnessSet, Insert;
      DistinctPrefix(rs);
      SortDistinct(rs[..|rs| - 1]);
      InsertDistinct(SortByWitness(rs[..|rs| - 1]), rs[|rs| - 1]);
    }
  }

  // ----- Weights

  function Weights(members: Members): map<string, nat> { map m | m in members :: members[m].weight }

  /** sum(members[r.witness_id].weight for r in rs if r.witness_id in members). */
  function ReceiptWeight(members: Members, rs: seq<WitnessReceipt>): nat {
    if rs == [] then 0
    else
      ReceiptWeight(members, rs[..|rs| - 1]) +
      if rs[|rs| - 1].Witness() in members then members[rs[|rs| - 1].Witness()].weight else 0
  }

  /** Receipts of distinct witnesses weigh what their witnesses weigh. */
  lemma {:induction false} ReceiptWeightIsWeight(members: Members, rs: seq<WitnessReceipt>)
    requires Distinct(rs)
    ensures ReceiptWeight(members, rs) == Weight(Weights(members), WitnessSet(rs))
  {
    if rs == [] {
      assert WitnessSet(rs) == {};
    } else {
      hide Distinct, WitnessSet, Weight;
      var n := |rs| - 1;
      DistinctPrefix(rs);
      ReceiptWeightIsWeight(members, rs[..n]);
      var w := rs[n].Witness();
      WeightRemove(Weights(members), WitnessSet(rs), w);
      assert WitnessSet(rs) - {w} == WitnessSet(rs[..n]);
    }
  }

  // ----- Proofs

  function ReceiptIds(rs: seq<WitnessReceipt>): seq<Digest> { seq(|rs|, i requires 0 <= i < |rs| => rs[i].Id()) }

  function Signers(rs: seq<WitnessReceipt>): seq<string> { seq(|rs|, i requires 0 <= i < |rs| => rs[i].Witness()) }

  predicate SameSubject(a: WitnessReceipt, b: WitnessReceipt) {
    && a.statement.capsuleId == b.statement.capsuleId
    && a.statement.predecessorId == b.statement.predecessorId
    && a.statement.epoch == b.statement.epoch
    && a.statement.attempt == b.statement.attempt
  }

  /** ClosureProof.create and AbandonProof.create, which differ in the status they require. */
  function CreateProof(kind: Status, receipts: seq<WitnessReceipt>): Result<Proof, Error> {
    var ordered := SortByWitness(receipts);
    if ordered == [] then Err(ClosureInvalid)
    else if exists i :: 0 <= i < |ordered| && !(ordered[i].statement.status == kind && SameSubject(ordered[i], ordered[0]))
    then Err(ClosureInvalid)
    else
      var s := ordered[0].statement;
      Ok(Proof(s.capsuleId, s.predecessorId, s.epoch, s.attempt, Signers(ordered), ordered,
               ProofDigest(kind, s.capsuleId, s.predecessorId, s.epoch, s.attempt, ReceiptIds(ordered))))
  }
}
