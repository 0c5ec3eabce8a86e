/**
 The committee, domain and join objects (ccd_nexus/quorum.py, domain.py, join.py). Domains change their own objects and
 vote in the committee they share.
 */
module JoinCoordinators {
  import opened Results
  import opened Names
  import opened Sums
  import opened Quorums
  import opened Committees
  import opened Domains
  import opened Joins

  class QuorumCommittee {
    const validators: Validators
    var votes: map<Key, map<string, Vote>>
    var statements: map<Key, map<string, Statement>>
    var evidence: seq<Equivocation>

    function State(): Committee
      reads this
    {
      Committee(validators, votes, statements, evidence)
    }

    constructor (validators: Validators)
      ensures State() == Committee(validators, map[], map[], [])
    {
      this.validators := validators;
      votes, statements, evidence := map[], map[], [];
    }

    method RequiredWeight() returns (threshold: nat)
      ensures threshold == State().RequiredWeight()
    {
      var weights := VoteWeights(validators);
      SumOverNonNegative(weights, weights.Keys);
      var total := SumTable(weights, weights.Keys);
      threshold := 2 * total / 3 + 1;
    }

    method RecordVote(vote: Vote) returns (ok: bool)
      modifies this
      ensures (State(), ok) == old(State()).RecordVote(vote)
    {
      if !State().Admissible(vote) { return false; }
      var known := Lookup(statements, vote.key);
      if vote.validatorId in known && known[vote.validatorId] != vote.statement {
        evidence := evidence + [Equivocation(vote.validatorId, known[vote.validatorId].opId, vote.statement.opId, vote.key)];
        return false;
      }
      statements := statements[vote.key := known[vote.validatorId := vote.statement]];
      votes := votes[vote.key := Lookup(votes, vote.key)[vote.validatorId := vote]];
      return true;
    }

    /** Every validator signs and casts the vote. */
    method RecordVotes(key: Key, statement: Statement) returns (ok: bool)
      modifies this
      ensures (State(), ok) == old(State()).VoteAll(key, statement)
    {
      hide Committee.RecordVote, SortedNames;
      State().NamesIn();
      var names := SortedNames(validators.Keys);
      ghost var before := State();
      assert names[0..] == names;
      for i := 0 to |names|
        invariant before.RecordAll(names, key, statement) == State().RecordAll(names[i..], key, statement)
      {
        assert names[i..][0] == names[i] && names[i..][1..] == names[i + 1..];
        var taken := RecordVote(SignVote(validators, names[i], key, statement));
        if !taken { return false; }
      }
      return true;
    }

    /** Votes of validators the committee knows, as record_vote lets in. */
    method IssueCertificate(key: Key, statement: Statement) returns (certificate: Option<Certificate>)
      requires Lookup(votes, key).Keys <= validators.Keys
      ensures certificate == State().IssueCertificate(key, statement)
    {
      var signatures := State().Matching(key, statement);
      var weights := VoteWeights(validators);
      assert signatures.Keys <= weights.Keys;
      var weight := SumTable(weights, signatures.Keys);
      var threshold := RequiredWeight();
      return if weight < threshold then None else Some(Certificate(key, statement, signatures));
    }

    method VerifyCertificate(certificate: Certificate, key: Key, statement: Statement) returns (ok: bool)
      ensures ok == State().VerifyCertificate(certificate, key, statement)
    {
      if certificate.key != key || certificate.statement != statement || key.phase.OtherPhase? { return false; }
      if !(certificate.signatures.Keys <= validators.Keys) { return false; }
      var weights := VoteWeights(validators);
      assert weights.Keys == validators.Keys;
      var weight := SumTable(weights, certificate.signatures.Keys);
      var threshold := RequiredWeight();
      if weight < threshold { return false; }
      return forall v :: v in certificate.signatures ==>
                           certificate.signatures[v] == SignedVote(validators[v].publicKey, key, statement);
    }
  }

  class DomainExecutor {
    const domainId: string
    const epoch: int
    const committee: QuorumCommittee
    var objects: Objects
    var committedOperations: set<string>
    var preparedCertificates: map<string, Certificate>
    var commitCertificates: map<string, Certificate>

    function State(): Domain
      reads this
    {
      Domain(domainId, epoch, objects, committedOperations, preparedCertificates, commitCertificates)
    }

    constructor (domainId: string, epoch: int, committee: QuorumCommittee)
      ensures this.committee == committee && State() == Domain(domainId, epoch, map[], {}, map[], map[])
    {
      this.domainId, this.epoch, this.committee := domainId, epoch, committee;
      objects, committedOperations, preparedCertificates, commitCertificates := map[], {}, map[], map[];
    }

    method AddObject(objectId: string, state: ObjectState) returns (ok: bool)
      modifies this`objects
      ensures (State(), ok) == old(State()).AddObject(objectId, state)
    {
      if state.domainId != domainId { return false; }
      if objectId in objects { return false; }
      objects := objects[objectId := state];
      return true;
    }

    method Certify(op: Operation, phase: Phase) returns (r: Result<Certificate, Error>)
      requires Filed(committee.State())
      modifies committee
      ensures (committee.State(), r) == old(State()).Certify(old(committee.State()), op, phase)
      ensures Filed(committee.State())
    {
      hide Committee.RecordAll, Committee.IssueCertificate, Committee.VerifyCertificate;
      var key := State().KeyOf(op, phase);
      committee.State().NamesIn();
      RecordAllKeeps(committee.State(), SortedNames(committee.validators.Keys), key, op.Statement());
      var ok := committee.RecordVotes(key, op.Statement());
      if !ok { return Err(QuorumError); }
      VotersKnown(committee.State(), key);
      var certificate := committee.IssueCertificate(key, op.Statement());
      if certificate.None? { return Err(QuorumError); }
      var verified := committee.VerifyCertificate(certificate.value, key, op.Statement());
      if !verified { return Err(QuorumError); }
      return Ok(certificate.value);
    }

    method Prepare(op: Operation) returns (r: Result<Certificate, Error>)
      requires Filed(committee.State())
      modifies this`preparedCertificates, committee
      ensures (State(), committee.State(), r) == old(State()).PrepareOp(old(committee.State()), op)
      ensures Filed(committee.State())
    {
      hide Domain.Certify, Domain.Validates, Filed;
      if !State().Validates(op) { return Err(DomainExecutionError); }
      var weights := VoteWeights(committee.validators);
      var total := SumTable(weights, weights.Keys);
      var threshold := committee.RequiredWeight();
      if total < threshold { return Err(QuorumError); }
      r := Certify(op, Phase.Prepare);
      if r.Ok? { preparedCertificates := preparedCertificates[op.body.opId := r.value]; }
    }

    method CommitCertificate(op: Operation, prepared: Certificate) returns (r: Result<Certificate, Error>)
      requires Filed(committee.State())
      modifies committee
      ensures (committee.State(), r) == old(State()).CommitOp(old(committee.State()), op, prepared)
      ensures Filed(committee.State())
    {
      hide Domain.Certify, Domain.Validates, Filed;
      if !State().Validates(op) { return Err(DomainExecutionError); }
      if op.body.opId !in preparedCertificates || preparedCertificates[op.body.opId] != prepared {
        return Err(DomainExecutionError);
      }
      r := Certify(op, Phase.Commit);
    }

    method ApplyCommitted(op: Operation, certificate: Certificate) returns (r: Result<(), Error>)
      modifies this
      ensures (State(), r) == old(State()).ApplyCommitted(committee.State(), op, certificate)
    {
      hide Domain.Validates, Committee.VerifyCertificate, LocalWrites;
      if !State().Validates(op) { return Err(DomainExecutionError); }
      var verified := committee.VerifyCertificate(certificate, State().KeyOf(op, certificate.key.phase), op.Statement());
      if !verified { return Err(QuorumError); }
      WriteIntents(LocalWrites(op.body.writes, domainId));
      committedOperations := committedOperations + {op.body.opId};
      commitCertificates := commitCertificates[op.body.opId := certificate];
      return Ok(());
    }

    method WriteIntents(writes: seq<WriteIntent>)
      modifies this`objects
      ensures objects == WriteAll(old(objects), writes)
    {
      for i := 0 to |writes|
        invariant objects == WriteAll(old(objects), writes[..i])
      {
        assert writes[..i + 1][..i] == writes[..i];
        var w := writes[i];
        if w.objectId in objects {
          var state := objects[w.objectId];
          objects := objects[w.objectId := ObjectState(state.version + 1, w.newOwner, w.newPayload, state.domainId)];
        }
      }
      assert writes[..|writes|] == writes;
    }
  }

  lemma VotersKnown(c: Committee, key: Key)
    requires Filed(c)
    ensures Lookup(c.votes, key).Keys <= c.validators.Keys
  {
    forall v | v in Lookup(c.votes, key) ensures v in c.validators { assert VoteFiled(c, key, v); }
  }

  /** One executor per domain, all sharing one committee. */
  class JoinCoordinator {
    const domains: map<string, DomainExecutor>
    const committee: QuorumCommittee

    ghost predicate Valid() {
      && (forall a, b :: a in domains && b in domains && a != b ==> domains[a] != domains[b])
      && forall id :: id in domains ==> domains[id].committee == committee
    }

    ghost function State(): Join
      reads domains.Values, committee
    {
      Join(map id | id in domains :: domains[id].State(), committee.State())
    }

    constructor (domains: map<string, DomainExecutor>, committee: QuorumCommittee)
      requires forall a, b :: a in domains && b in domains && a != b ==> domains[a] != domains[b]
      requires forall id :: id in domains ==> domains[id].committee == committee
      ensures Valid() && this.domains == domains && this.committee == committee
    {
      this.domains, this.committee := domains, committee;
    }

    method PrepareIn(id: string, op: Operation) returns (r: Result<Certificate, Error>)
      requires Valid() && id in domains && Filed(committee.State())
      modifies domains.Values, committee
      ensures var (d, c, result) := old(State()).domains[id].PrepareOp(old(State()).committee, op);
              r == result && State() == Join(old(State()).domains[id := d], c)
      ensures Filed(committee.State())
    {
      hide Domain.PrepareOp, Filed;
      assert domains[id] in domains.Values;
      r := domains[id].Prepare(op);
      assert forall other :: other in domains && other != id ==> domains[other].State() == old(domains[other].State());
      assert State().domains == old(State()).domains[id := domains[id].State()];
    }

    method CommitIn(id: string, op: Operation) returns (r: Result<Certificate, Error>)
      requires Valid() && id in domains && Filed(committee.State())
      requires op.body.opId in domains[id].preparedCertificates
      modifies committee
      ensures var d := old(State()).domains[id];
              var (c, result) := d.CommitOp(old(State()).committee, op, d.preparedCertificates[op.body.opId]);
              r == result && State() == old(State()).(committee := c)
      ensures Filed(committee.State())
    {
      hide Domain.CommitOp, Filed;
      r := domains[id].CommitCertificate(op, domains[id].preparedCertificates[op.body.opId]);
      assert State().domains == old(State()).domains;
    }

    method ApplyIn(id: string, op: Operation, certificate: Certificate) returns (r: Result<(), Error>)
      requires Valid() && id in domains
      modifies domains.Values
      ensures var (d, result) := old(State()).domains[id].ApplyCommitted(old(State()).committee, op, certificate);
              r == result && State() == old(State()).(domains := old(State()).domains[id := d])
    {
      hide Domain.ApplyCommitted;
      assert domains[id] in domains.Values;
      r := domains[id].ApplyCommitted(op, certificate);
      assert forall other :: other in domains && other != id ==> domains[other].State() == old(domains[other].State());
      assert State().domains == old(State()).domains[id := domains[id].State()];
    }

    method PrepareAll(names: seq<string>, op: Operation) returns (failed: Option<Error>)
      requires Valid() && Filed(committee.State())
      modifies domains.Values, committee
      ensures (State(), failed) == old(State()).PrepareAll(names, op)
      ensures Filed(committee.State())
    {
      hide Domain.PrepareOp, Filed;
      ghost var before := State();
      assert names[0..] == names;
      for i := 0 to |names|
        invariant Filed(committee.State())
        invariant before.PrepareAll(names, op) == State().PrepareAll(names[i..], op)
      {
        assert names[i..][0] == names[i] && names[i..][1..] == names[i + 1..];
        if names[i] !in domains { return Some(JoinError); }
        var r := PrepareIn(names[i], op);
        if r.Err? { return Some(r.error); }
      }
      return None;
    }

    method CommitAll(names: seq<string>, op: Operation) returns (r: Result<seq<Certificate>, Error>)
      requires Valid() && Filed(committee.State())
      modifies committee
      ensures (State(), r) == old(State()).CommitAll(names, op)
      ensures Filed(committee.State())
    {
      hide Domain.CommitOp, Filed;
      ghost var all := State().CommitAll(names, op);
      var certificates: seq<Certificate> := [];
      assert names[0..] == names;
      for i := 0 to |names|
        invariant Filed(committee.State())
        invariant Follows(all, State().CommitAll(names[i..], op), certificates)
      {
        assert names[i..][0] == names[i] && names[i..][1..] == names[i + 1..];
        if names[i] !in domains || op.body.opId !in domains[names[i]].preparedCertificates { return Err(JoinError); }
        var issued := CommitIn(names[i], op);
        if issued.Err? { return Err(issued.error); }
        certificates := certificates + [issued.value];
      }
      assert names[|names|..] == [] && certificates + [] == certificates;
      return Ok(certificates);
    }

    method ApplyAll(names: seq<string>, op: Operation, certificates: seq<Certificate>) returns (failed: Option<Error>)
      requires Valid() && |certificates| == |names|
      modifies domains.Values
      ensures (State(), failed) == old(State()).ApplyAll(names, op, certificates)
    {
      hide Domain.ApplyCommitted;
      ghost var before := State();
      assert names[0..] == names && certificates[0..] == certificates;
      for i := 0 to |names|
        invariant before.ApplyAll(names, op, certificates) == State().ApplyAll(names[i..], op, certificates[i..])
      {
        assert names[i..][0] == names[i] && names[i..][1..] == names[i + 1..];
        assert certificates[i..][0] == certificates[i] && certificates[i..][1..] == certificates[i + 1..];
        if names[i] !in domains { return Some(JoinError); }
        var r := ApplyIn(names[i], op, certificates[i]);
        if r.Err? { return Some(r.error); }
      }
      return None;
    }

    /** The prepare certificates cover the declared domains, each declared once. */
    method Covers(op: Operation) returns (ok: bool)
      ensures ok == State().Covers(op)
    {
      var expected := set d | d in op.body.domainIds;
      var certified := set id | id in domains :: domains[id].domainId;
      ghost var j := State();
      assert forall id :: id in domains <==> id in j.domains;
      assert domains == map[] <==> j.domains == map[];
      assert forall id :: id in domains ==> j.domains[id].domainId == domains[id].domainId;
      assert certified == set id | id in j.domains :: j.domains[id].domainId;
      return domains != map[] && |expected| == |op.body.domainIds| && expected == certified;
    }

    /** No domain is applied until every domain has issued and checked its commit certificate. */
    method CommitAndApply(names: seq<string>, op: Operation) returns (failed: Option<Error>)
      requires Valid() && Filed(committee.State())
      modifies domains.Values, committee
      ensures var (committed, certificates) := old(State()).CommitAll(names, op);
              (State(), failed) == if certificates.Err? then (committed, Some(certificates.error))
                                   else committed.ApplyAll(names, op, certificates.value)
      ensures Filed(committee.State())
    {
      hide Join.CommitAll, Join.ApplyAll, Filed;
      var certificates := CommitAll(names, op);
      if certificates.Err? { return Some(certificates.error); }
      failed := ApplyAll(names, op, certificates.value);
    }

    lemma SameKeys(op: Operation)
      ensures State().domains.Keys == domains.Keys
      ensures State().DomainSet(op) == set d | d in op.body.domainIds
    {}

    method Finalize(op: Operation) returns (failed: Option<Error>)
      requires Valid() && Filed(committee.State())
      modifies domains.Values, committee
      ensures (State(), failed) == old(State()).Finalize(op)
      ensures Filed(committee.State())
    {
      hide State, Join.PrepareAll, Join.CommitAll, Join.ApplyAll, Join.Covers, Filed, SortedNames;
      var expected := set d | d in op.body.domainIds;
      SameKeys(op);
      if expected != domains.Keys { return Some(JoinError); }
      var names := SortedNames(expected);
      failed := PrepareAll(names, op);
      if failed.Some? { return; }
      var covered := Covers(op);
      if !covered { return Some(JoinError); }
      failed := CommitAndApply(names, op);
    }
  }

  /** The whole round of certificates is those issued so far followed by the rest. */
  ghost predicate Follows(all: (Join, Result<seq<Certificate>, Error>), rest: (Join, Result<seq<Certificate>, Error>),
                          certificates: seq<Certificate>)
  {
    && all.0 == rest.0 && all.1.Ok? == rest.1.Ok?
    && (if all.1.Ok? then all.1.value == certificates + rest.1.value else all.1 == rest.1)
  }
}
