/**
 Joining domains is all or nothing, versions count the operations committed on an object, and no version is spent
 twice.
 */
module Joins {
  import opened Results
  import opened Names
  import opened Quorums
  import opened Committees
  import opened Domains

  // ----- Certificates last

  lemma VerifySame(c: Committee, d: Committee, certificate: Certificate, key: Key, statement: Statement)
    requires c.validators == d.validators
    ensures c.VerifyCertificate(certificate, key, statement) == d.VerifyCertificate(certificate, key, statement)
  {}

  lemma {:induction false} ValidatorsStay(c: Committee, names: seq<string>, key: Key, statement: Statement)
    requires forall i :: 0 <= i < |names| ==> names[i] in c.validators
    ensures c.RecordAll(names, key, statement).0.validators == c.validators
    decreases |names|
  {
    if names != [] {
      var (d, ok) := c.RecordVote(SignVote(c.validators, names[0], key, statement));
      hide Committee.RecordVote;
      if ok { ValidatorsStay(d, names[1..], key, statement); }
    }
  }

  lemma CertifyChecked(d: Domain, c: Committee, op: Operation, phase: Phase)
    ensures var (voted, r) := d.Certify(c, op, phase);
            && voted.validators == c.validators
            && (r.Ok? ==> voted.VerifyCertificate(r.value, d.KeyOf(op, phase), op.Statement()) && r.value.key.phase == phase)
  {
    c.NamesIn();
    ValidatorsStay(c, SortedNames(c.validators.Keys), d.KeyOf(op, phase), op.Statement());
    hide Committee.RecordAll, Committee.Matching, Weight;
  }

  // ----- Preparing

  /** Preparing touches prepared certificates only. */
  predicate OnlyPrepared(d: Domain, e: Domain) { e == d.(preparedCertificates := e.preparedCertificates) }

  ghost predicate AllOnlyPrepared(j: Join, k: Join) {
    && k.domains.Keys == j.domains.Keys && k.committee.validators == j.committee.validators
    && forall id :: id in j.domains ==> OnlyPrepared(j.domains[id], k.domains[id])
  }

  lemma PrepareOnly(d: Domain, c: Committee, op: Operation)
    ensures var (e, voted, r) := d.PrepareOp(c, op); OnlyPrepared(d, e) && voted.validators == c.validators
  {
    CertifyChecked(d, c, op, Phase.Prepare);
    hide Domain.Certify, Domain.Validates;
  }

  lemma {:induction false} PrepareAllOnly(j: Join, names: seq<string>, op: Operation)
    ensures AllOnlyPrepared(j, j.PrepareAll(names, op).0)
    decreases |names|
  {
    hide Domain.PrepareOp;
    if names != [] && names[0] in j.domains {
      PrepareOnly(j.domains[names[0]], j.committee, op);
      var (domain, voted, r) := j.domains[names[0]].PrepareOp(j.committee, op);
      var next := Join(j.domains[names[0] := domain], voted);
      if r.Ok? {
        PrepareAllOnly(next, names[1..], op);
        PreparedThrough(j, next, next.PrepareAll(names[1..], op).0);
      }
    }
  }

  lemma PreparedThrough(j: Join, k: Join, l: Join)
    requires AllOnlyPrepared(j, k) && AllOnlyPrepared(k, l)
    ensures AllOnlyPrepared(j, l)
  {
    forall id | id in j.domains ensures OnlyPrepared(j.domains[id], l.domains[id]) {
      assert OnlyPrepared(j.domains[id], k.domains[id]) && OnlyPrepared(k.domains[id], l.domains[id]);
    }
  }

  // ----- Committing

  /** This domain accepts the operation, and the certificate is its commit certificate. */
  ghost predicate ReadyToApply(d: Domain, c: Committee, op: Operation, certificate: Certificate) {
    d.Validates(op) && c.VerifyCertificate(certificate, d.KeyOf(op, certificate.key.phase), op.Statement())
  }

  lemma CommitReady(d: Domain, c: Committee, op: Operation, prepared: Certificate)
    ensures var (voted, r) := d.CommitOp(c, op, prepared);
            voted.validators == c.validators && (r.Ok? ==> ReadyToApply(d, voted, op, r.value))
  {
    CertifyChecked(d, c, op, Phase.Commit);
    hide Domain.Certify, Domain.Validates;
  }

  lemma ReadyStays(d: Domain, c: Committee, e: Committee, op: Operation, certificate: Certificate)
    requires ReadyToApply(d, c, op, certificate) && c.validators == e.validators
    ensures ReadyToApply(d, e, op, certificate)
  {
    VerifySame(c, e, certificate, d.KeyOf(op, certificate.key.phase), op.Statement());
    hide Domain.Validates, Committee.VerifyCertificate;
  }

  ghost predicate AllReady(j: Join, names: seq<string>, op: Operation, certificates: seq<Certificate>)
    requires |certificates| == |names|
  {
    forall i :: 0 <= i < |names| ==> names[i] in j.domains && ReadyToApply(j.domains[names[i]], j.committee, op, certificates[i])
  }

  /** Committing changes no domain, and when it succeeds every domain is ready to apply. */
  lemma {:induction false} CommitAllReady(j: Join, names: seq<string>, op: Operation)
    ensures var (k, r) := j.CommitAll(names, op);
            && k.domains == j.domains && k.committee.validators == j.committee.validators
            && (r.Ok? ==> AllReady(k, names, op, r.value))
    decreases |names|
  {
    hide Domain.CommitOp, ReadyToApply;
    if names != [] && names[0] in j.domains && op.body.opId in j.domains[names[0]].preparedCertificates {
      var domain := j.domains[names[0]];
      var prepared := domain.preparedCertificates[op.body.opId];
      CommitReady(domain, j.committee, op, prepared);
      var (voted, r) := domain.CommitOp(j.committee, op, prepared);
      var next := j.(committee := voted);
      if r.Ok? {
        CommitAllReady(next, names[1..], op);
        var (k, rest) := next.CommitAll(names[1..], op);
        if rest.Ok? { ReadyStays(domain, voted, k.committee, op, r.value); }
      }
    }
  }

  // ----- Applying

  /** Exactly the domains of the list have the operation written. */
  ghost predicate AllWritten(j: Join, names: seq<string>, op: Operation, certificates: seq<Certificate>, k: Join)
    requires |certificates| == |names|
  {
    && k.committee == j.committee && k.domains.Keys == j.domains.Keys
    && (forall i :: 0 <= i < |names| ==> names[i] in j.domains && k.domains[names[i]] == j.domains[names[i]].Written(op, certificates[i]))
    && (forall id :: id in j.domains && id !in names ==> k.domains[id] == j.domains[id])
  }

  lemma ApplyFirst(j: Join, names: seq<string>, op: Operation, certificates: seq<Certificate>)
    requires |certificates| == |names| && names != [] && AllReady(j, names, op, certificates)
    ensures names[0] in j.domains
    ensures j.domains[names[0]].ApplyCommitted(j.committee, op, certificates[0])
         == (j.domains[names[0]].Written(op, certificates[0]), Ok(()))
  {
    assert ReadyToApply(j.domains[names[0]], j.committee, op, certificates[0]);
    hide Domain.Validates, Committee.VerifyCertificate, Domain.Written, AllReady;
  }

  lemma RestReady(j: Join, names: seq<string>, op: Operation, certificates: seq<Certificate>, next: Join)
    requires |certificates| == |names| && names != [] && NoRepeats(names) && AllReady(j, names, op, certificates)
    requires names[0] in j.domains && names[0] in next.domains
    requires next == j.(domains := j.domains[names[0] := next.domains[names[0]]])
    ensures AllReady(next, names[1..], op, certificates[1..])
  {
    hide ReadyToApply;
    forall i | 0 <= i < |names| - 1
      ensures names[1..][i] in next.domains
              && ReadyToApply(next.domains[names[1..][i]], next.committee, op, certificates[1..][i])
    {
      assert names[1..][i] == names[i + 1] && certificates[1..][i] == certificates[i + 1];
    }
  }

  /** Once every domain is ready, none of them can refuse. */
  lemma {:induction false} ApplyAllWrites(j: Join, names: seq<string>, op: Operation, certificates: seq<Certificate>)
    requires |certificates| == |names| && NoRepeats(names) && AllReady(j, names, op, certificates)
    ensures var (k, failed) := j.ApplyAll(names, op, certificates);
            failed == None && AllWritten(j, names, op, certificates, k)
    decreases |names|
  {
    if names != [] {
      ReadyPresent(j, names, op, certificates);
      hide Domain.Written, Domain.ApplyCommitted, AllReady, AllWritten;
      ApplyFirst(j, names, op, certificates);
      var next := j.(domains := j.domains[names[0] := j.domains[names[0]].Written(op, certificates[0])]);
      RestReady(j, names, op, certificates, next);
      ApplyAllWrites(next, names[1..], op, certificates[1..]);
      WrittenStep(j, names, op, certificates, next.ApplyAll(names[1..], op, certificates[1..]).0);
    }
  }

  lemma ReadyPresent(j: Join, names: seq<string>, op: Operation, certificates: seq<Certificate>)
    requires |certificates| == |names| && AllReady(j, names, op, certificates)
    ensures forall i :: 0 <= i < |names| ==> names[i] in j.domains
  {
    hide ReadyToApply;
  }

  lemma WrittenStep(j: Join, names: seq<string>, op: Operation, certificates: seq<Certificate>, k: Join)
    requires |certificates| == |names| && NoRepeats(names) && names != [] && names[0] in j.domains
    requires AllWritten(j.(domains := j.domains[names[0] := j.domains[names[0]].Written(op, certificates[0])]),
                        names[1..], op, certificates[1..], k)
    requires forall i :: 0 <= i < |names| ==> names[i] in j.domains
    ensures AllWritten(j, names, op, certificates, k)
  {
    hide Domain.Written;
    var next := j.(domains := j.domains[names[0] := j.domains[names[0]].Written(op, certificates[0])]);
    assert names == [names[0]] + names[1..];
    forall i | 0 <= i < |names| ensures k.domains[names[i]] == j.domains[names[i]].Written(op, certificates[i]) {
      if i == 0 {
        assert names[0] !in names[1..];
      } else {
        assert names[1..][i - 1] == names[i] && certificates[1..][i - 1] == certificates[i];
      }
    }
  }

  // ----- All or nothing

  /** The domain's objects and committed operations, which is all that joining protects. */
  predicate Untouched(d: Domain, e: Domain) {
    e.domainId == d.domainId && e.objects == d.objects && e.committedOperations == d.committedOperations
  }

  predicate Applied(d: Domain, e: Domain, op: Operation) {
    && d.Validates(op) && e.domainId == d.domainId
    && e.objects == WriteAll(d.objects, LocalWrites(op.body.writes, d.domainId))
    && e.committedOperations == d.committedOperations + {op.body.opId}
  }

  /** finalize applies the operation in every domain or raises with no domain's objects touched. */
  lemma FinalizeAtomic(j: Join, op: Operation)
    ensures var (k, failed) := j.Finalize(op);
            && k.domains.Keys == j.domains.Keys
            && if failed.None? then forall id :: id in j.domains ==> Applied(j.domains[id], k.domains[id], op)
               else forall id :: id in j.domains ==> Untouched(j.domains[id], k.domains[id])
  {
    hide Join.PrepareAll, Join.CommitAll, Join.ApplyAll, Join.Covers, Join.DomainSet, SortedNames, Untouched, Applied,
         AllReady, AllWritten, AllOnlyPrepared;
    JoinSelf(j);
    if j.DomainSet(op) == j.domains.Keys {
      var names := SortedNames(j.domains.Keys);
      var (prepared, failed) := j.PrepareAll(names, op);
      PrepareAllOnly(j, names, op);
      PreparedUntouched(j, prepared);
      if failed.None? && prepared.Covers(op) {
        CommitAllReady(prepared, names, op);
        var (committed, certificates) := prepared.CommitAll(names, op);
        if certificates.Ok? { AppliedEverywhere(j, prepared, committed, names, op, certificates.value); }
      }
    }
  }

  lemma JoinSelf(j: Join)
    ensures forall id :: id in j.domains ==> Untouched(j.domains[id], j.domains[id])
  {}

  lemma AppliedEverywhere(j: Join, prepared: Join, m: Join, names: seq<string>, op: Operation, certificates: seq<Certificate>)
    requires AllOnlyPrepared(j, prepared) && m.domains == prepared.domains
    requires m.committee.validators == prepared.committee.validators
    requires |certificates| == |names| && AllReady(m, names, op, certificates)
    requires NoRepeats(names) && forall id :: id in j.domains ==> id in names
    ensures var (k, failed) := m.ApplyAll(names, op, certificates);
            failed == None && k.domains.Keys == j.domains.Keys
            && forall id :: id in j.domains ==> Applied(j.domains[id], k.domains[id], op)
  {
    assert AllOnlyPrepared(j, m);
    hide OnlyPrepared, AllReady, Join.ApplyAll, Applied;
    ApplyAllWrites(m, names, op, certificates);
    var k := m.ApplyAll(names, op, certificates).0;
    forall id | id in j.domains ensures Applied(j.domains[id], k.domains[id], op) {
      AppliedOne(j, m, names, op, certificates, k, id);
    }
  }

  lemma PreparedUntouched(j: Join, k: Join)
    requires AllOnlyPrepared(j, k)
    ensures k.domains.Keys == j.domains.Keys && forall id :: id in j.domains ==> Untouched(j.domains[id], k.domains[id])
  {
    forall id | id in j.domains ensures Untouched(j.domains[id], k.domains[id]) {
      assert OnlyPrepared(j.domains[id], k.domains[id]);
    }
  }

  lemma AppliedOne(j: Join, m: Join, names: seq<string>, op: Operation, certificates: seq<Certificate>, k: Join, id: string)
    requires |certificates| == |names| && AllOnlyPrepared(j, m) && AllReady(m, names, op, certificates)
    requires AllWritten(m, names, op, certificates, k) && id in names && id in j.domains
    ensures id in k.domains && Applied(j.domains[id], k.domains[id], op)
  {
    hide LocalWrites, WriteAll, Committee.VerifyCertificate;
    var i :| 0 <= i < |names| && names[i] == id;
    assert ReadyToApply(m.domains[id], m.committee, op, certificates[i]);
    assert OnlyPrepared(j.domains[id], m.domains[id]);
    SameValidation(j.domains[id], m.domains[id], op);
    hide Domain.Validates;
  }

  lemma SameValidation(d: Domain, e: Domain, op: Operation)
    requires OnlyPrepared(d, e)
    ensures d.Validates(op) == e.Validates(op)
  {
    hide DeclaresDomains, Paired;
    assert forall i :: d.InputReady(op.body, i) == e.InputReady(op.body, i);
  }
}
