/**
 What votes and certificates are worth: a second statement on a key leaves evidence against its validator, a certificate
 passes exactly with a quorum of genuine signatures, and nothing is applied without one.
 */
module Votes {
  import opened Results
  import opened Names
  import opened Quorums
  import opened Committees
  import opened Domains
  import opened Writing

  // ----- Votes

  /** The vote is a validator's own, on a key of a real epoch. */
  predicate OwnVote(c: Committee, vote: Vote) {
    && vote.validatorId in c.validators && vote.key.epoch >= 0
    && vote.signature == SignedVote(c.validators[vote.validatorId].publicKey, vote.key, vote.statement)
  }

  predicate OnRecordFor(c: Committee, v: string, key: Key, statement: Statement) {
    key in c.statements && v in c.statements[key] && c.statements[key][v] == statement
  }

  /** A genuine vote is taken when its validator is on record for that statement, or for none, on the key. */
  lemma VoteExactly(c: Committee, vote: Vote)
    ensures var (d, ok) := c.RecordVote(vote);
            && (ok <==> OwnVote(c, vote) && forall s :: OnRecordFor(c, vote.validatorId, vote.key, s) ==> s == vote.statement)
            && d.validators == c.validators
            && (ok ==> OnRecordFor(d, vote.validatorId, vote.key, vote.statement) && d.evidence == c.evidence
                       && vote.key in d.votes && vote.validatorId in d.votes[vote.key]
                       && d.votes[vote.key][vote.validatorId] == vote)
  {
    if vote.key in c.statements && vote.validatorId in c.statements[vote.key] {
      assert OnRecordFor(c, vote.validatorId, vote.key, c.statements[vote.key][vote.validatorId]);
    }
  }

  /** A genuine vote for another statement is refused and put on record as evidence, naming both operations in turn. */
  lemma SecondStatementIsEvidence(c: Committee, vote: Vote, first: Statement)
    requires OwnVote(c, vote) && OnRecordFor(c, vote.validatorId, vote.key, first) && first != vote.statement
    ensures c.RecordVote(vote) == (c.(evidence := c.evidence + [Equivocation(vote.validatorId, first.opId,
                                                                             vote.statement.opId, vote.key)]), false)
  {}

  /** No other vote adds evidence, so nobody is accused without two signed statements on one key. */
  lemma EvidenceOnlyThen(c: Committee, vote: Vote)
    requires c.RecordVote(vote).0.evidence != c.evidence
    ensures OwnVote(c, vote) && exists s :: OnRecordFor(c, vote.validatorId, vote.key, s) && s != vote.statement
  {
    assert OnRecordFor(c, vote.validatorId, vote.key, c.statements[vote.key][vote.validatorId]);
  }

  // ----- Certificates

  /** Validators of more than two thirds of the weight signed this statement on this key, and nobody else is named. */
  ghost predicate Quorate(c: Committee, signatures: map<string, VoteSignature>, key: Key, statement: Statement) {
    && signatures.Keys <= c.validators.Keys
    && 3 * Weight(VoteWeights(c.validators), signatures.Keys) > 2 * Total(VoteWeights(c.validators))
    && forall v :: v in signatures ==> signatures[v] == SignedVote(c.validators[v].publicKey, key, statement)
  }

  /** A certificate passes exactly for its own key and statement, in a known phase, with a quorum of signatures. */
  lemma CertificateExactly(c: Committee, certificate: Certificate, key: Key, statement: Statement)
    ensures c.VerifyCertificate(certificate, key, statement) <==>
            && certificate.key == key && certificate.statement == statement && (key.phase.Prepare? || key.phase.Commit?)
            && Quorate(c, certificate.signatures, key, statement)
  {
    hide Weight;
  }

  /**
   What a domain applies is signed by its client, names this domain and epoch, was not applied before, has a quorum behind
   it, and writes only objects its signer owns at the versions it read.
   */
  lemma AppliedIsCertified(d: Domain, c: Committee, op: Operation, certificate: Certificate)
    requires d.ApplyCommitted(c, op, certificate).1.Ok?
    ensures op.signature == SignedOperation(op.body.signerPublicKey, op.body)
    ensures op.body.epoch == d.epoch && d.domainId in op.body.domainIds && op.body.opId !in d.committedOperations
    ensures Quorate(c, certificate.signatures, certificate.key, op.Statement())
    ensures certificate.key.epoch == d.epoch && certificate.key.domainId == d.domainId && certificate.statement == op.Statement()
    ensures forall w :: w in op.body.writes && w.domainId == d.domainId ==>
              && w.objectId in d.objects && d.objects[w.objectId].owner == op.body.signer
              && d.objects[w.objectId].version == w.expectedVersion
  {
    assert d.Validates(op) && c.VerifyCertificate(certificate, d.KeyOf(op, certificate.key.phase), op.Statement());
    CertificateExactly(c, certificate, d.KeyOf(op, certificate.key.phase), op.Statement());
    forall w | w in op.body.writes && w.domainId == d.domainId
      ensures w.objectId in d.objects && d.objects[w.objectId].owner == op.body.signer
              && d.objects[w.objectId].version == w.expectedVersion
    {
      OwnDomain(d, op, w);
    }
    hide Quorate, Paired, DeclaresDomains, Committee.VerifyCertificate, VersionsOf, Domain.Written;
  }
}
