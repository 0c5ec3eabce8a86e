/**
 What committed operations write: each object an operation names gets the owner and the payload of the intent for it, at
 the version after the one it was read at, and no other object changes.
 */
module Writing {
  import opened Results
  import opened Names
  import opened Committees
  import opened Domains
  import opened Joins
  import opened Spending

  lemma {:induction false} WriteAllContents(objects: Objects, writes: seq<WriteIntent>, i: nat)
    requires ObjectsDiffer(writes) && AllPresent(objects, writes) && i < |writes|
    ensures writes[i].objectId in WriteAll(objects, writes)
    ensures var w, state := writes[i], WriteAll(objects, writes)[writes[i].objectId];
            && state.owner == w.newOwner && state.payload == w.newPayload
            && state.domainId == objects[w.objectId].domainId && state.version == objects[w.objectId].version + 1
    decreases |writes|
  {
    var n := |writes| - 1;
    var init := writes[..n];
    WriteAllVersions(objects, init);
    if i < n {
      WriteAllContents(objects, init, i);
      assert init[i].objectId != writes[n].objectId;
    } else {
      assert !Writes(init, writes[n].objectId);
    }
  }

  /** The object holds what this intent says. */
  ghost predicate TookEffect(e: Domain, w: WriteIntent) {
    && w.objectId in e.objects
    && e.objects[w.objectId] == ObjectState(w.expectedVersion + 1, w.newOwner, w.newPayload, e.domainId)
  }

  /** Every intent for this domain has taken effect, and every object without one is as before. */
  ghost predicate WrittenAs(d: Domain, e: Domain, writes: seq<WriteIntent>) {
    && e.domainId == d.domainId && e.objects.Keys == d.objects.Keys
    && (forall w :: w in writes && w.domainId == d.domainId ==> TookEffect(e, w))
    && forall o :: o in d.objects && (forall w :: w in writes && w.domainId == d.domainId ==> w.objectId != o) ==>
                     e.objects[o] == d.objects[o]
  }

  lemma OwnDomain(d: Domain, op: Operation, w: WriteIntent)
    requires d.Validates(op) && w in op.body.writes && w.domainId == d.domainId
    ensures w.objectId in d.objects && d.objects[w.objectId].domainId == d.domainId
    ensures d.objects[w.objectId].version == w.expectedVersion && d.objects[w.objectId].owner == op.body.signer
  {
    var b := op.body;
    var j :| 0 <= j < |b.writes| && b.writes[j] == w;
    assert HasInput(b.writes[j], b.inputs);
    hide WritesDiffer, InputsDiffer, DeclaresDomains;
    var k :| 0 <= k < |b.inputs| && Targets(b.inputs[k], w) && b.inputs[k].expectedVersion == w.expectedVersion;
    assert d.InputReady(b, b.inputs[k]);
  }

  lemma AppliedWrites(d: Domain, e: Domain, op: Operation)
    requires Applied(d, e, op)
    ensures WrittenAs(d, e, op.body.writes)
  {
    LocalWritesCurrent(d, op);
    LocalFrom(op.body.writes, d.domainId);
    var local := LocalWrites(op.body.writes, d.domainId);
    WriteAllVersions(d.objects, local);
    forall w | w in op.body.writes && w.domainId == d.domainId ensures TookEffect(e, w) {
      OwnDomain(d, op, w);
      assert w in local;
      var i :| 0 <= i < |local| && local[i] == w;
      WriteAllContents(d.objects, local, i);
    }
    hide Domain.Validates, LocalWrites, WriteAll, TookEffect, ObjectsDiffer;
    forall o | o in d.objects && (forall w :: w in op.body.writes && w.domainId == d.domainId ==> w.objectId != o)
      ensures e.objects[o] == d.objects[o]
    {
      assert !Writes(local, o) by {
        if Writes(local, o) { Named(local, o); }
      }
    }
  }

  lemma Named(writes: seq<WriteIntent>, o: string)
    requires Writes(writes, o)
    ensures exists w :: w in writes && w.objectId == o
  {
    var j :| 0 <= j < |writes| && writes[j].objectId == o;
    assert writes[j] in writes;
  }

  /** An operation that a domain applies leaves exactly what its intents for that domain say, and is committed there. */
  lemma ApplyWrites(d: Domain, c: Committee, op: Operation, certificate: Certificate)
    requires d.ApplyCommitted(c, op, certificate).1.Ok?
    ensures var e := d.ApplyCommitted(c, op, certificate).0;
            && WrittenAs(d, e, op.body.writes)
            && op.body.opId !in d.committedOperations
            && e.committedOperations == d.committedOperations + {op.body.opId}
            && op.body.opId in e.commitCertificates && e.commitCertificates[op.body.opId] == certificate
  {
    var e := d.ApplyCommitted(c, op, certificate).0;
    assert Applied(d, e, op) by { hide Domain.Validates, Committee.VerifyCertificate, LocalWrites, WriteAll; }
    AppliedWrites(d, e, op);
    hide WrittenAs, LocalWrites, WriteAll, Committee.VerifyCertificate, Paired, DeclaresDomains, Domain.InputReady;
  }

  /** A join that succeeds does so in every domain. */
  lemma JoinWrites(j: Join, op: Operation)
    requires j.Finalize(op).1.None?
    ensures var k := j.Finalize(op).0;
            && k.domains.Keys == j.domains.Keys
            && forall id :: id in j.domains ==>
                 WrittenAs(j.domains[id], k.domains[id], op.body.writes) && op.body.opId in k.domains[id].committedOperations
  {
    FinalizeAtomic(j, op);
    hide Join.Finalize, WrittenAs, Applied;
    var k := j.Finalize(op).0;
    forall id | id in j.domains
      ensures WrittenAs(j.domains[id], k.domains[id], op.body.writes) && op.body.opId in k.domains[id].committedOperations
    {
      AppliedWrites(j.domains[id], k.domains[id], op);
      AppliedCommits(j.domains[id], k.domains[id], op);
    }
  }

  lemma AppliedCommits(d: Domain, e: Domain, op: Operation)
    requires Applied(d, e, op)
    ensures op.body.opId in e.committedOperations
  {
    hide Domain.Validates, LocalWrites, WriteAll;
  }
}
