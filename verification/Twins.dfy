/**
 Operations that differ and yet share identifier and dependency. Validation checks the signature and never recomputes the
 identifier, and the dependency covers parents and inputs only; so a signer can sign two operations with other writes
 between which votes and certificates cannot tell.
 */
module Twins {
  import opened Results
  import opened Names
  import opened Quorums
  import opened Committees
  import opened Domains
  import opened Joins
  import opened JoinRuns
  import opened JoinOutcomes
  import opened Reservations

  /** A certificate for one operation applies whichever of its twins the domain validates, with that one's writes. */
  lemma CertificateAppliesTwin(d: Domain, c: Committee, op: Operation, twin: Operation, certificate: Certificate)
    requires d.ApplyCommitted(c, op, certificate).1.Ok? && Agree(op, twin) && d.Validates(twin)
    ensures d.ApplyCommitted(c, twin, certificate) == (d.Written(twin, certificate), Ok(()))
  {
    hide Domain.Validates, Committee.VerifyCertificate, VersionsOf, Domain.Written;
  }

  // ----- A concrete pair

  function ToDave(): WriteIntent { WriteIntent("a", "object", 0, "dave", "") }

  /** Alice signs her own operation a second time, with the object going to somebody else. */
  function Twin(): Operation { SignedBody(Alone().body.(writes := [ToDave()])) }

  lemma TwinAgrees()
    ensures Agree(Alone(), Twin()) && Twin().body.writes != Alone().body.writes
  {
    assert Alone().body.writes[0].newOwner == "carol" && Twin().body.writes[0].newOwner == "dave";
  }

  lemma TwinPaired()
    ensures Paired(Twin().body) && DeclaresDomains(Twin().body)
  {
    var b := Twin().body;
    assert Targets(b.inputs[0], b.writes[0]);
    assert b.inputs[0].domainId == b.domainIds[0];
  }

  lemma TwinValidates()
    ensures "a" in TwoDomains().domains && TwoDomains().domains["a"].Validates(Twin())
  {
    TwinPaired();
    hide Paired, DeclaresDomains;
    assert Twin().body.inputs == [Input("a")];
  }

  lemma PreparedVerifies(d: Domain, c: Committee, op: Operation)
    requires d.PrepareOp(c, op).2.Ok?
    ensures var (e, voted, r) := d.PrepareOp(c, op);
            && OnlyPrepared(d, e) && voted.VerifyCertificate(r.value, d.KeyOf(op, Phase.Prepare), op.Statement())
  {
    hide Domain.Validates, Committee.VoteAll, Committee.IssueCertificate, Committee.VerifyCertificate, Total;
  }

  lemma SameInputsSameKey(d: Domain, op: Operation, twin: Operation)
    requires Agree(op, twin)
    ensures d.KeyOf(twin, Phase.Prepare) == d.KeyOf(op, Phase.Prepare) && twin.Statement() == op.Statement()
  {
    hide VersionsOf;
  }

  /** After one of two twins is prepared the domain prepares the other, and the first certificate passes for it. */
  lemma TwinsPrepare(d: Domain, c: Committee, op: Operation, twin: Operation)
    requires Filed(c) && d.PrepareOp(c, op).2.Ok? && Agree(op, twin) && d.Validates(twin)
    ensures var (e, voted, r) := d.PrepareOp(c, op);
            && e.PrepareOp(voted, twin).2.Ok?
            && voted.VerifyCertificate(r.value, e.KeyOf(twin, Phase.Prepare), twin.Statement())
  {
    hide *;
    var (e, voted, r) := d.PrepareOp(c, op);
    PreparedVerifies(d, c, op);
    PrepareExactly(d, c, op);
    RemembersSelf(voted);
    SameInputsSameKey(d, op, twin);
    KeyUnchanged(d, e, twin);
    SameValidation(d, e, twin);
    PreparedReserves(d, c, op, e, voted, twin);
  }

  lemma AliceIsAble()
    ensures "a" in TwoDomains().domains && Filed(TwoDomains().committee)
    ensures TwoDomains().domains["a"].PrepareOp(TwoDomains().committee, Alone()).2.Ok?
  {
    WhoIsAble();
    NobodyBound(Alone());
    hide *;
    var d := TwoDomains().domains["a"];
    AbleMeans(d, TwoDomains().committee, Alone(), Phase.Prepare);
    PrepareExactly(d, TwoDomains().committee, Alone());
  }

  /** So two operations that hand one version of one object to different owners are both prepared. */
  lemma BothTwinsPrepared()
    ensures "a" in Run(EmptyHistory(), ADDING).join.domains && Alone().body.writes != Twin().body.writes
    ensures var j := Run(EmptyHistory(), ADDING).join; var (e, voted, r) := j.domains["a"].PrepareOp(j.committee, Alone());
            && r.Ok? && e.PrepareOp(voted, Twin()).2.Ok?
            && voted.VerifyCertificate(r.value, e.KeyOf(Twin(), Phase.Prepare), Twin().Statement())
  {
    hide *;
    TwoDomainsReached();
    AliceIsAble();
    TwinAgrees();
    TwinValidates();
    TwinsPrepare(TwoDomains().domains["a"], TwoDomains().committee, Alone(), Twin());
  }
}
