/**
 One domain's objects and the operations it validates, prepares and applies (ccd_nexus/domain.py), and the join of
 several domains (ccd_nexus/join.py).
 */
module Domains {
  import opened Results
  import opened Names
  import opened Quorums
  import opened Committees

  datatype WriteIntent = WriteIntent(domainId: string, objectId: string, expectedVersion: int, newOwner: string, newPayload: string)

  datatype OperationBody = OperationBody(
    opId: string, epoch: int, signer: string, signerPublicKey: string, domainIds: seq<string>,
    inputs: seq<InputRef>, writes: seq<WriteIntent>, parents: seq<string>, nonce: int)

  datatype OperationSignature = SignedOperation(key: string, body: OperationBody) | OtherOperationBytes(bytes: string)

  datatype Operation = Operation(body: OperationBody, signature: OperationSignature) {
    predicate VerifySignature() { signature == SignedOperation(body.signerPublicKey, body) }

    /** What votes and certificates name an operation by. Nothing ties the identifier to the rest, nor are writes in it. */
    function Statement(): Statement { Committees.Statement(body.opId, Dependency(body.parents, body.inputs)) }
  }

  datatype ObjectState = ObjectState(version: int, owner: string, payload: string, domainId: string)

  datatype Error = DomainExecutionError | QuorumError | JoinError

  type Objects = map<string, ObjectState>

  // ----- The parts of an operation

  predicate SameInput(a: InputRef, b: InputRef) { a.domainId == b.domainId && a.objectId == b.objectId }

  predicate SameWrite(a: WriteIntent, b: WriteIntent) { a.domainId == b.domainId && a.objectId == b.objectId }

  predicate Targets(i: InputRef, w: WriteIntent) { i.domainId == w.domainId && i.objectId == w.objectId }

  predicate InputsDiffer(inputs: seq<InputRef>) {
    forall i, j :: 0 <= i < j < |inputs| ==> !SameInput(inputs[i], inputs[j])
  }

  predicate WritesDiffer(writes: seq<WriteIntent>) {
    forall i, j :: 0 <= i < j < |writes| ==> !SameWrite(writes[i], writes[j])
  }

  predicate HasWrite(i: InputRef, writes: seq<WriteIntent>) { exists j :: 0 <= j < |writes| && Targets(i, writes[j]) }

  predicate HasInput(w: WriteIntent, inputs: seq<InputRef>) {
    exists i :: 0 <= i < |inputs| && Targets(inputs[i], w) && inputs[i].expectedVersion == w.expectedVersion
  }

  /**
   No object is named twice; every input has a write intent and every write intent has an input, of the same version.
   */
  predicate Paired(b: OperationBody) {
    && InputsDiffer(b.inputs) && WritesDiffer(b.writes)
    && (forall i :: 0 <= i < |b.inputs| ==> HasWrite(b.inputs[i], b.writes))
    && (forall j :: 0 <= j < |b.writes| ==> HasInput(b.writes[j], b.inputs))
  }

  predicate DeclaresDomains(b: OperationBody) {
    && (forall i :: 0 <= i < |b.inputs| ==> b.inputs[i].domainId in b.domainIds)
    && (forall d :: 0 <= d < |b.domainIds| ==> exists i :: 0 <= i < |b.inputs| && b.inputs[i].domainId == b.domainIds[d])
  }

  function LocalWrites(writes: seq<WriteIntent>, domainId: string): seq<WriteIntent> {
    if writes == [] then []
    else LocalWrites(writes[..|writes| - 1], domainId) +
         if writes[|writes| - 1].domainId == domainId then [writes[|writes| - 1]] else []
  }

  function VersionsOf(inputs: seq<InputRef>, domainId: string): multiset<(string, int)> {
    if inputs == [] then multiset{}
    else
      var last := inputs[|inputs| - 1];
      VersionsOf(inputs[..|inputs| - 1], domainId) +
      if last.domainId == domainId then multiset{(last.objectId, last.expectedVersion)} else multiset{}
  }

  // ----- A domain

  datatype Domain = Domain(
    domainId: string,
    epoch: int,
    objects: Objects,
    committedOperations: set<string>,
    preparedCertificates: map<string, Certificate>,
    commitCertificates: map<string, Certificate>)
  {
    function AddObject(objectId: string, state: ObjectState): (Domain, bool) {
      if state.domainId != domainId || objectId in objects then (this, false)
      else (this.(objects := objects[objectId := state]), true)
    }

    predicate InputReady(b: OperationBody, i: InputRef) {
      i.domainId == domainId ==>
        && i.objectId in objects && objects[i.objectId].domainId == domainId
        && objects[i.objectId].version == i.expectedVersion && objects[i.objectId].owner == b.signer
    }

    /** validate_operation raises unless this holds. */
    predicate Validates(op: Operation) {
      var b := op.body;
      && b.epoch == epoch && domainId in b.domainIds && op.VerifySignature() && b.opId !in committedOperations
      && b.inputs != [] && DeclaresDomains(b) && Paired(b)
      && forall i :: 0 <= i < |b.inputs| ==> InputReady(b, b.inputs[i])
    }

    function KeyOf(op: Operation, phase: Phase): Key { Key(epoch, domainId, VersionsOf(op.body.inputs, domainId), phase) }

    /** All validators vote and the committee issues and checks the certificate. */
    ghost function Certify(c: Committee, op: Operation, phase: Phase): (Committee, Result<Certificate, Error>) {
      var (voted, ok) := c.VoteAll(KeyOf(op, phase), op.Statement());
      if !ok then (voted, Err(QuorumError))
      else
        match voted.IssueCertificate(KeyOf(op, phase), op.Statement())
        case None => (voted, Err(QuorumError))
        case Some(certificate) =>
          if voted.VerifyCertificate(certificate, KeyOf(op, phase), op.Statement()) then (voted, Ok(certificate))
          else (voted, Err(QuorumError))
    }

    /** A committee without weight cannot even certify that the operation's data is available. */
    ghost function PrepareOp(c: Committee, op: Operation): (Domain, Committee, Result<Certificate, Error>) {
      if !Validates(op) then (this, c, Err(DomainExecutionError))
      else if Total(VoteWeights(c.validators)) < c.RequiredWeight() then (this, c, Err(QuorumError))
      else
        var (voted, r) := Certify(c, op, Phase.Prepare);
        if r.Err? then (this, voted, r)
        else (this.(preparedCertificates := preparedCertificates[op.body.opId := r.value]), voted, r)
    }

    ghost function CommitOp(c: Committee, op: Operation, prepared: Certificate): (Committee, Result<Certificate, Error>) {
      if !Validates(op) || op.body.opId !in preparedCertificates || preparedCertificates[op.body.opId] != prepared
      then (c, Err(DomainExecutionError))
      else Certify(c, op, Phase.Commit)
    }

    /** The domain after the operation's local writes. */
    function Written(op: Operation, certificate: Certificate): Domain {
      this.(objects := WriteAll(objects, LocalWrites(op.body.writes, domainId)),
            committedOperations := committedOperations + {op.body.opId},
            commitCertificates := commitCertificates[op.body.opId := certificate])
    }

    ghost function ApplyCommitted(c: Committee, op: Operation, certificate: Certificate): (Domain, Result<(), Error>) {
      if !Validates(op) then (this, Err(DomainExecutionError))
      else if !c.VerifyCertificate(certificate, KeyOf(op, certificate.key.phase), op.Statement())
      then (this, Err(QuorumError))
      else (Written(op, certificate), Ok(()))
    }
  }

  /** An intent for an object that is not there writes nothing; validation rules it out. */
  function WriteAll(objects: Objects, writes: seq<WriteIntent>): Objects {
    if writes == [] then objects
    else
      var before, w := WriteAll(objects, writes[..|writes| - 1]), writes[|writes| - 1];
      if w.objectId !in before then before
      else
        var state := before[w.objectId];
        before[w.objectId := ObjectState(state.version + 1, w.newOwner, w.newPayload, state.domainId)]
  }

  // ----- Joining domains

  datatype Join = Join(domains: map<string, Domain>, committee: Committee) {
    /** Every domain of the list prepares, up to the first refusal. */
    ghost function PrepareAll(names: seq<string>, op: Operation): (Join, Option<Error>)
      decreases |names|
    {
      if names == [] then (this, None)
      else if names[0] !in domains then (this, Some(JoinError))
      else
        var (domain, voted, r) := domains[names[0]].PrepareOp(committee, op);
        var next := Join(domains[names[0] := domain], voted);
        if r.Err? then (next, Some(r.error)) else next.PrepareAll(names[1..], op)
    }

    /** Every domain of the list issues its commit certificate. */
    ghost function CommitAll(names: seq<string>, op: Operation): (r: (Join, Result<seq<Certificate>, Error>))
      ensures r.1.Ok? ==> |r.1.value| == |names|
      decreases |names|
    {
      if names == [] then (this, Ok([]))
      else if names[0] !in domains || op.body.opId !in domains[names[0]].preparedCertificates then (this, Err(JoinError))
      else
        var domain := domains[names[0]];
        var (voted, r) := domain.CommitOp(committee, op, domain.preparedCertificates[op.body.opId]);
        var next := this.(committee := voted);
        if r.Err? then (next, Err(r.error))
        else
          var (after, rest) := next.CommitAll(names[1..], op);
          (after, if rest.Ok? then Ok([r.value] + rest.value) else rest)
    }

    ghost function ApplyAll(names: seq<string>, op: Operation, certificates: seq<Certificate>): (Join, Option<Error>)
      requires |certificates| == |names|
      decreases |names|
    {
      if names == [] then (this, None)
      else if names[0] !in domains then (this, Some(JoinError))
      else
        var (domain, r) := domains[names[0]].ApplyCommitted(committee, op, certificates[0]);
        var next := this.(domains := domains[names[0] := domain]);
        if r.Err? then (next, Some(r.error)) else next.ApplyAll(names[1..], op, certificates[1..])
    }

    function DomainSet(op: Operation): set<string> { set d | d in op.body.domainIds }

    /** One prepare certificate for each declared domain, none declared twice, and some domain to take the committee from. */
    predicate Covers(op: Operation) {
      && domains != map[]
      && |DomainSet(op)| == |op.body.domainIds|
      && DomainSet(op) == set id | id in domains :: domains[id].domainId
    }

    ghost function Finalize(op: Operation): (Join, Option<Error>) {
      if DomainSet(op) != domains.Keys then (this, Some(JoinError))
      else
        var names := SortedNames(domains.Keys);
        var (prepared, failed) := PrepareAll(names, op);
        if failed.Some? then (prepared, failed)
        else if !prepared.Covers(op) then (prepared, Some(JoinError))
        else
          var (committed, certificates) := prepared.CommitAll(names, op);
          if certificates.Err? then (committed, Some(certificates.error))
          else committed.ApplyAll(names, op, certificates.value)
    }
  }
}
