/**
 When preparing, committing and joining succeed: exactly when every domain validates the operation and the committee is
 free to vote for it, so that a prepared operation reserves its versions for good.
 */
module JoinOutcomes {
  import opened Results
  import opened Names
  import opened Quorums
  import opened Committees
  import opened Domains
  import opened Joins
  import opened JoinRuns

  predicate Bound(c: Committee, v: string, key: Key, statement: Statement) {
    v in Lookup(c.statements, key) && Lookup(c.statements, key)[v] != statement
  }

  /** No validator is on record for something else. */
  ghost predicate Free(c: Committee, key: Key, statement: Statement) {
    forall v :: v in c.validators ==> !Bound(c, v, key, statement)
  }

  ghost predicate SameElsewhere(c: Committee, d: Committee, key: Key) {
    d.validators == c.validators && forall k :: k != key ==> Lookup(d.statements, k) == Lookup(c.statements, k)
  }

  lemma {:induction false} RecordAllExactly(c: Committee, names: seq<string>, key: Key, statement: Statement)
    requires forall i :: 0 <= i < |names| ==> names[i] in c.validators
    ensures var (d, ok) := c.RecordAll(names, key, statement);
            && SameElsewhere(c, d, key)
            && (ok <==> names == [] ||
                        (key.epoch >= 0 && forall i :: 0 <= i < |names| ==> !Bound(c, names[i], key, statement)))
    decreases |names|
  {
    if names != [] {
      RecordOne(c, names[0], key, statement);
      var (d, ok) := c.RecordVote(SignVote(c.validators, names[0], key, statement));
      hide Committee.RecordVote, Bound;
      if ok {
        RecordAllExactly(d, names[1..], key, statement);
        assert forall i :: 0 < i < |names| ==> names[1..][i - 1] == names[i];
        assert forall i :: 0 <= i < |names| - 1 ==> names[1..][i] == names[i + 1];
      }
    }
  }

  lemma RecordOne(c: Committee, v: string, key: Key, statement: Statement)
    requires v in c.validators
    ensures var (d, ok) := c.RecordVote(SignVote(c.validators, v, key, statement));
            && SameElsewhere(c, d, key)
            && (ok <==> key.epoch >= 0 && !Bound(c, v, key, statement))
            && (ok ==> forall u :: Bound(d, u, key, statement) == Bound(c, u, key, statement))
  {}

  /** The committee can certify this: it has weight, the epoch is valid, and it is free to vote. */
  ghost predicate Certifiable(d: Domain, c: Committee, op: Operation, phase: Phase) {
    && d.epoch >= 0 && Total(VoteWeights(c.validators)) > 0 && Free(c, d.KeyOf(op, phase), op.Statement())
  }

  lemma EnoughWeight(w: WeightMap)
    ensures Total(w) > 0 <==> Total(w) >= Threshold(w)
    ensures Total(w) > 0 ==> w != map[]
  {}

  lemma VoteAllExactly(c: Committee, key: Key, statement: Statement)
    ensures var (d, ok) := c.VoteAll(key, statement);
            && SameElsewhere(c, d, key)
            && (ok <==> c.validators == map[] || (key.epoch >= 0 && Free(c, key, statement)))
            && (ok ==> c.validators.Keys <= d.Matching(key, statement).Keys)
  {
    var names := SortedNames(c.validators.Keys);
    c.NamesIn();
    RecordAllExactly(c, names, key, statement);
    if c.VoteAll(key, statement).1 { RecordAllSigns(c, names, key, statement); }
    hide Committee.RecordAll, Bound, SameElsewhere, Committee.Matching, SortedNames;
    assert names == [] <==> c.validators.Keys == {};
    assert c.validators.Keys == {} <==> c.validators == map[];
    if forall i :: 0 <= i < |names| ==> !Bound(c, names[i], key, statement) {
      forall v | v in c.validators ensures !Bound(c, v, key, statement) { assert v in names; }
    }
  }

  lemma CertifyExactly(d: Domain, c: Committee, op: Operation, phase: Phase)
    requires Filed(c) && !phase.OtherPhase?
    ensures var (voted, r) := d.Certify(c, op, phase);
            && SameElsewhere(c, voted, d.KeyOf(op, phase)) && Filed(voted)
            && (r.Ok? <==> Certifiable(d, c, op, phase))
  {
    var key, statement := d.KeyOf(op, phase), op.Statement();
    CertifyKeeps(d, c, op, phase);
    VoteAllExactly(c, key, statement);
    var (voted, ok) := c.VoteAll(key, statement);
    hide Free, SameElsewhere, Filed, Committee.VoteAll, Committee.VerifyCertificate, Committee.Matching, Weight;
    EnoughWeight(VoteWeights(c.validators));
    if ok {
      assert voted.validators == c.validators by { SameValidators(c, voted, key); }
      AllSign(voted, key, statement);
      if voted.IssueCertificate(key, statement).Some? { IssuedVerifies(voted, key, statement); }
    }
  }

  lemma SameValidators(c: Committee, d: Committee, key: Key)
    requires SameElsewhere(c, d, key)
    ensures d.validators == c.validators
  {}

  lemma AllSign(c: Committee, key: Key, statement: Statement)
    requires Filed(c) && c.validators.Keys <= c.Matching(key, statement).Keys
    ensures c.IssueCertificate(key, statement).Some? <==> Total(VoteWeights(c.validators)) > 0
  {
    SignersFiled(c, key, statement);
    hide Filed, Committee.Matching, Weight;
    EnoughWeight(VoteWeights(c.validators));
    assert c.Matching(key, statement).Keys == c.validators.Keys;
    assert VoteWeights(c.validators).Keys == c.validators.Keys;
  }

  lemma PrepareExactly(d: Domain, c: Committee, op: Operation)
    requires Filed(c)
    ensures var (e, voted, r) := d.PrepareOp(c, op);
            && SameElsewhere(c, voted, d.KeyOf(op, Phase.Prepare)) && Filed(voted)
            && (r.Ok? <==> d.Validates(op) && Certifiable(d, c, op, Phase.Prepare))
            && e.domainId == d.domainId && d.preparedCertificates.Keys <= e.preparedCertificates.Keys
            && (r.Ok? ==> op.body.opId in e.preparedCertificates)
  {
    CertifyExactly(d, c, op, Phase.Prepare);
    EnoughWeight(VoteWeights(c.validators));
    hide Filed, Domain.Certify, Domain.Validates, Free, Weight;
  }

  lemma CommitExactly(d: Domain, c: Committee, op: Operation)
    requires Filed(c) && op.body.opId in d.preparedCertificates
    ensures var (voted, r) := d.CommitOp(c, op, d.preparedCertificates[op.body.opId]);
            && SameElsewhere(c, voted, d.KeyOf(op, Phase.Commit)) && Filed(voted)
            && (r.Ok? <==> d.Validates(op) && Certifiable(d, c, op, Phase.Commit))
  {
    CertifyExactly(d, c, op, Phase.Commit);
    hide Filed, Domain.Certify, Domain.Validates, Certifiable;
  }

  // ----- All domains

  ghost predicate Able(d: Domain, c: Committee, op: Operation, phase: Phase) {
    d.Validates(op) && Certifiable(d, c, op, phase)
  }

  ghost predicate AllAble(j: Join, names: seq<string>, op: Operation, phase: Phase) {
    forall i :: 0 <= i < |names| ==> names[i] in j.domains && Able(j.domains[names[i]], j.committee, op, phase)
  }

  /** No two domains of the list go by one identifier. */
  ghost predicate Apart(j: Join, names: seq<string>) {
    && (forall i :: 0 <= i < |names| ==> names[i] in j.domains)
    && forall i, k :: 0 <= i < k < |names| ==> j.domains[names[i]].domainId != j.domains[names[k]].domainId
  }

  /** Votes for one domain's key leave what another domain may certify as it was. */
  lemma AbleElsewhere(d: Domain, e: Domain, c: Committee, voted: Committee, op: Operation, phase: Phase, key: Key)
    requires SameElsewhere(c, voted, key) && d.KeyOf(op, phase) != key && OnlyPrepared(d, e)
    ensures Able(e, voted, op, phase) == Able(d, c, op, phase)
  {
    SameValidation(d, e, op);
    hide Domain.Validates, Weight;
    var own, statement := d.KeyOf(op, phase), op.Statement();
    assert forall v :: Bound(voted, v, own, statement) == Bound(c, v, own, statement);
  }

  /** What preparing some domains leaves: the same domains but for prepared certificates, and the same other votes. */
  ghost predicate Prepared(j: Join, k: Join, op: Operation) {
    && AllOnlyPrepared(j, k)
    && (forall id :: id in j.domains ==> j.domains[id].preparedCertificates.Keys <= k.domains[id].preparedCertificates.Keys)
    && forall key: Key :: key.phase != Phase.Prepare ==> Lookup(k.committee.statements, key) == Lookup(j.committee.statements, key)
  }

  lemma PreparedOn(j: Join, k: Join, l: Join, op: Operation)
    requires Prepared(j, k, op) && Prepared(k, l, op)
    ensures Prepared(j, l, op)
  {
    PreparedThrough(j, k, l);
    hide OnlyPrepared;
  }

  lemma PrepareOne(j: Join, name: string, op: Operation)
    requires Filed(j.committee) && name in j.domains
    ensures var (d, voted, r) := j.domains[name].PrepareOp(j.committee, op);
            var next := Join(j.domains[name := d], voted);
            && Prepared(j, next, op) && Filed(voted)
            && SameElsewhere(j.committee, voted, j.domains[name].KeyOf(op, Phase.Prepare))
            && (r.Ok? <==> Able(j.domains[name], j.committee, op, Phase.Prepare))
            && (r.Ok? ==> op.body.opId in d.preparedCertificates)
  {
    hide *;
    PrepareExactly(j.domains[name], j.committee, op);
    PrepareOnly(j.domains[name], j.committee, op);
    var (d, voted, r) := j.domains[name].PrepareOp(j.committee, op);
    AbleMeans(j.domains[name], j.committee, op, Phase.Prepare);
    PreparedStep(j, name, d, voted, op, j.domains[name].KeyOf(op, Phase.Prepare));
  }

  lemma AbleMeans(d: Domain, c: Committee, op: Operation, phase: Phase)
    ensures Able(d, c, op, phase) <==> d.Validates(op) && Certifiable(d, c, op, phase)
    ensures d.KeyOf(op, phase).phase == phase
  {
    hide Domain.Validates, Certifiable;
  }

  lemma PreparedStep(j: Join, name: string, d: Domain, voted: Committee, op: Operation, key: Key)
    requires name in j.domains && OnlyPrepared(j.domains[name], d)
    requires j.domains[name].preparedCertificates.Keys <= d.preparedCertificates.Keys
    requires key.phase == Phase.Prepare && SameElsewhere(j.committee, voted, key)
    ensures Prepared(j, Join(j.domains[name := d], voted), op)
  {
    hide Lookup;
  }

  lemma KeptPrepared(j: Join, k: Join, op: Operation, id: string)
    requires Prepared(j, k, op) && id in j.domains && op.body.opId in j.domains[id].preparedCertificates
    ensures id in k.domains && op.body.opId in k.domains[id].preparedCertificates
  {
    hide OnlyPrepared;
  }

  lemma RestAble(j: Join, next: Join, names: seq<string>, op: Operation, phase: Phase, key: Key)
    requires names != [] && Apart(j, names) && AllOnlyPrepared(j, next)
    requires key == j.domains[names[0]].KeyOf(op, phase) && SameElsewhere(j.committee, next.committee, key)
    ensures Apart(next, names[1..])
    ensures AllAble(next, names[1..], op, phase) <==>
            forall i :: 1 <= i < |names| ==> Able(j.domains[names[i]], j.committee, op, phase)
  {
    hide Able, OnlyPrepared, SameElsewhere;
    forall i | 1 <= i < |names|
      ensures names[i] in next.domains && next.domains[names[i]].domainId == j.domains[names[i]].domainId
      ensures Able(next.domains[names[i]], next.committee, op, phase)
           == Able(j.domains[names[i]], j.committee, op, phase)
    {
      var d, e := j.domains[names[i]], next.domains[names[i]];
      SameDomain(d, e);
      AbleElsewhere(d, e, j.committee, next.committee, op, phase, key);
    }
    assert forall i :: 1 <= i < |names| ==> names[1..][i - 1] == names[i];
    assert forall i :: 0 <= i < |names| - 1 ==> names[1..][i] == names[i + 1];
  }

  lemma SameDomain(d: Domain, e: Domain)
    requires OnlyPrepared(d, e)
    ensures e.domainId == d.domainId
  {}

  lemma PreparedSelf(j: Join, op: Operation)
    ensures Prepared(j, j, op)
  {}

  lemma {:induction false} PrepareAllExactly(j: Join, names: seq<string>, op: Operation)
    requires Filed(j.committee) && Apart(j, names)
    ensures var (k, failed) := j.PrepareAll(names, op);
            && Prepared(j, k, op) && Filed(k.committee)
            && (failed.None? <==> AllAble(j, names, op, Phase.Prepare))
            && (failed.None? ==> forall i :: 0 <= i < |names| ==>
                  names[i] in k.domains && op.body.opId in k.domains[names[i]].preparedCertificates)
    decreases |names|
  {
    hide Domain.PrepareOp, Able, Filed, OnlyPrepared, SameElsewhere, AllOnlyPrepared;
    if names == [] {
      PreparedSelf(j, op);
    } else {
      PrepareOne(j, names[0], op);
      var (d, voted, r) := j.domains[names[0]].PrepareOp(j.committee, op);
      var next := Join(j.domains[names[0] := d], voted);
      if r.Ok? {
        RestAble(j, next, names, op, Phase.Prepare, j.domains[names[0]].KeyOf(op, Phase.Prepare));
        PrepareAllExactly(next, names[1..], op);
        var k := next.PrepareAll(names[1..], op).0;
        PreparedOn(j, next, k, op);

        forall i | 0 <= i < |names| && j.PrepareAll(names, op).1.None?
          ensures names[i] in k.domains && op.body.opId in k.domains[names[i]].preparedCertificates
        {
          if i == 0 { KeptPrepared(next, k, op, names[0]); } else { assert names[1..][i - 1] == names[i]; }
        }
      }
    }
  }

  ghost predicate AllPrepared(j: Join, names: seq<string>, op: Operation) {
    forall i :: 0 <= i < |names| ==> names[i] in j.domains && op.body.opId in j.domains[names[i]].preparedCertificates
  }

  lemma CommitOne(j: Join, name: string, op: Operation)
    requires Filed(j.committee) && name in j.domains && op.body.opId in j.domains[name].preparedCertificates
    ensures var (voted, r) := j.domains[name].CommitOp(j.committee, op, j.domains[name].preparedCertificates[op.body.opId]);
            && AllOnlyPrepared(j, j.(committee := voted)) && Filed(voted)
            && SameElsewhere(j.committee, voted, j.domains[name].KeyOf(op, Phase.Commit))
            && (r.Ok? <==> Able(j.domains[name], j.committee, op, Phase.Commit))
  {
    CommitExactly(j.domains[name], j.committee, op);
    AbleMeans(j.domains[name], j.committee, op, Phase.Commit);
    hide Domain.CommitOp, Domain.Validates, Certifiable, Filed, Able, Lookup;
  }

  lemma {:induction false} CommitAllExactly(j: Join, names: seq<string>, op: Operation)
    requires Filed(j.committee) && Apart(j, names) && AllPrepared(j, names, op)
    ensures j.CommitAll(names, op).1.Ok? <==> AllAble(j, names, op, Phase.Commit)
    decreases |names|
  {
    hide Domain.CommitOp, Able, Filed, OnlyPrepared, SameElsewhere, AllOnlyPrepared;
    if names != [] {
      CommitOne(j, names[0], op);
      var domain := j.domains[names[0]];
      var (voted, r) := domain.CommitOp(j.committee, op, domain.preparedCertificates[op.body.opId]);
      var next := j.(committee := voted);
      if r.Ok? {
        RestAble(j, next, names, op, Phase.Commit, domain.KeyOf(op, Phase.Commit));
        RestPrepared(j, next, names, op);
        CommitAllExactly(next, names[1..], op);
      }
    }
  }

  lemma RestPrepared(j: Join, next: Join, names: seq<string>, op: Operation)
    requires names != [] && AllPrepared(j, names, op) && next.domains == j.domains
    ensures AllPrepared(next, names[1..], op)
  {
    assert forall i :: 0 <= i < |names| - 1 ==> names[1..][i] == names[i + 1];
  }

  // ----- The join

  /** What joining takes, all of it visible before the call. */
  ghost predicate Joinable(j: Join, op: Operation) {
    && j.DomainSet(op) == j.domains.Keys && j.Covers(op)
    && forall id :: id in j.domains ==>
         Able(j.domains[id], j.committee, op, Phase.Prepare) && Able(j.domains[id], j.committee, op, Phase.Commit)
  }

  /** As many identifiers as domains: no two share one. */
  lemma CoversApart(j: Join, op: Operation)
    requires j.DomainSet(op) == j.domains.Keys && j.Covers(op)
    ensures Apart(j, SortedNames(j.domains.Keys))
  {
    hide Join.Covers, Join.DomainSet, Identifiers, SortedNames, Apart;
    CoversCounts(j, op);
    NamesApart(j, SortedNames(j.domains.Keys));
  }

  lemma NamesApart(j: Join, names: seq<string>)
    requires |Identifiers(j.domains)| == |j.domains.Keys| && NoRepeats(names) && forall x :: x in names ==> x in j.domains
    ensures Apart(j, names)
  {
    hide Identifiers;
    forall i, k | 0 <= i < k < |names| ensures j.domains[names[i]].domainId != j.domains[names[k]].domainId {
      assert names[i] != names[k];
      DifferentIdentifiers(j.domains, names[i], names[k]);
    }
  }

  function Identifiers(domains: map<string, Domain>): set<string> { set id | id in domains :: domains[id].domainId }

  lemma CoversCounts(j: Join, op: Operation)
    requires j.DomainSet(op) == j.domains.Keys && j.Covers(op)
    ensures |Identifiers(j.domains)| == |j.domains.Keys|
  {}

  lemma DifferentIdentifiers(domains: map<string, Domain>, x: string, y: string)
    requires x in domains && y in domains && x != y && |Identifiers(domains)| == |domains.Keys|
    ensures domains[x].domainId != domains[y].domainId
  {
    hide Identifiers;
    if domains[x].domainId == domains[y].domainId { SharedIdentifier(domains, x, y); }
  }

  lemma SharedIdentifier(domains: map<string, Domain>, x: string, y: string)
    requires x in domains && y in domains && x != y && domains[x].domainId == domains[y].domainId
    ensures |Identifiers(domains)| < |domains.Keys|
  {
    var rest := domains.Keys - {y};
    ImageSmaller(domains, rest);
    assert Identifiers(domains) == set id | id in rest :: domains[id].domainId;
  }

  lemma {:induction false} ImageSmaller(domains: map<string, Domain>, s: set<string>)
    requires s <= domains.Keys
    ensures |set id | id in s :: domains[id].domainId| <= |s|
    decreases |s|
  {
    if s != {} {
      var x :| x in s;
      ImageSmaller(domains, s - {x});
      var before := set id | id in s - {x} :: domains[id].domainId;
      assert (set id | id in s :: domains[id].domainId) == before + {domains[x].domainId};
    }
  }

  lemma CoversStays(j: Join, k: Join, op: Operation)
    requires AllOnlyPrepared(j, k)
    ensures k.Covers(op) == j.Covers(op) && k.DomainSet(op) == j.DomainSet(op)
  {
    forall id | id in j.domains ensures k.domains[id].domainId == j.domains[id].domainId {
      assert OnlyPrepared(j.domains[id], k.domains[id]);
    }
    assert (set id | id in k.domains :: k.domains[id].domainId) == set id | id in j.domains :: j.domains[id].domainId;
  }

  lemma AbleToCommit(j: Join, k: Join, names: seq<string>, op: Operation)
    requires Prepared(j, k, op) && Apart(j, names)
    ensures Apart(k, names)
    ensures AllAble(k, names, op, Phase.Commit) <==> AllAble(j, names, op, Phase.Commit)
  {
    hide Able, OnlyPrepared;
    forall i | 0 <= i < |names|
      ensures names[i] in k.domains && k.domains[names[i]].domainId == j.domains[names[i]].domainId
      ensures Able(k.domains[names[i]], k.committee, op, Phase.Commit)
           == Able(j.domains[names[i]], j.committee, op, Phase.Commit)
    {
      SameDomain(j.domains[names[i]], k.domains[names[i]]);
      AbleWhereSame(j.domains[names[i]], k.domains[names[i]], j.committee, k.committee, op, Phase.Commit);
    }
  }

  lemma AbleWhereSame(d: Domain, e: Domain, c: Committee, voted: Committee, op: Operation, phase: Phase)
    requires OnlyPrepared(d, e) && voted.validators == c.validators
    requires Lookup(voted.statements, d.KeyOf(op, phase)) == Lookup(c.statements, d.KeyOf(op, phase))
    ensures Able(e, voted, op, phase) == Able(d, c, op, phase)
  {
    SameValidation(d, e, op);
    hide Domain.Validates, Weight, Lookup;
    var own, statement := d.KeyOf(op, phase), op.Statement();
    assert forall v :: Bound(voted, v, own, statement) == Bound(c, v, own, statement);
  }

  lemma EverywhereAble(j: Join, op: Operation)
    requires j.DomainSet(op) == j.domains.Keys && j.Covers(op)
    ensures var names := SortedNames(j.domains.Keys);
            Joinable(j, op) <==> AllAble(j, names, op, Phase.Prepare) && AllAble(j, names, op, Phase.Commit)
  {
    hide SortedNames, Able, Join.Covers, Join.DomainSet;
    var names := SortedNames(j.domains.Keys);
    forall i | 0 <= i < |names| ensures names[i] in j.domains { assert names[i] in names; }
    if AllAble(j, names, op, Phase.Prepare) && AllAble(j, names, op, Phase.Commit) {
      forall id | id in j.domains
        ensures Able(j.domains[id], j.committee, op, Phase.Prepare) && Able(j.domains[id], j.committee, op, Phase.Commit)
      {
        assert id in names;
      }
    }
  }

  /** Joining what is declared right succeeds exactly when preparing and committing can. */
  lemma CoveredJoin(j: Join, op: Operation)
    requires Filed(j.committee) && j.DomainSet(op) == j.domains.Keys && j.Covers(op)
    ensures j.Finalize(op).1.None? <==> Joinable(j, op)
  {
    var names := SortedNames(j.domains.Keys);
    hide *;
    hide SortedNames;
    CoversApart(j, op);
    EverywhereAble(j, op);
    PrepareAllExactly(j, names, op);
    var (k, failed) := j.PrepareAll(names, op);
    if failed.None? {
      AllOnly(j, k, op);
      CoversStays(j, k, op);
      AbleToCommit(j, k, names, op);
      AllAreIn(k, names, op);
      CommitAllExactly(k, names, op);
    }
    FinalizeUnfolds(j, op);
  }

  lemma AllOnly(j: Join, k: Join, op: Operation)
    requires Prepared(j, k, op)
    ensures AllOnlyPrepared(j, k)
  {}

  lemma AllAreIn(k: Join, names: seq<string>, op: Operation)
    requires forall i :: 0 <= i < |names| ==> names[i] in k.domains && op.body.opId in k.domains[names[i]].preparedCertificates
    ensures AllPrepared(k, names, op)
  {}

  /** Once every commit certificate exists nothing can refuse, so joining fails only before. */
  lemma FinalizeUnfolds(j: Join, op: Operation)
    ensures var names := SortedNames(j.domains.Keys);
            var (k, failed) := j.PrepareAll(names, op);
            j.Finalize(op).1.None? <==>
              j.DomainSet(op) == j.domains.Keys && failed.None? && k.Covers(op) && k.CommitAll(names, op).1.Ok?
  {
    hide Join.PrepareAll, Join.CommitAll, Join.ApplyAll, Join.Covers, Join.DomainSet, SortedNames, Untouched, Applied,
         AllReady, AllWritten, AllOnlyPrepared;
    var names := SortedNames(j.domains.Keys);
    var (k, failed) := j.PrepareAll(names, op);
    PrepareAllOnly(j, names, op);
    if j.DomainSet(op) == j.domains.Keys && failed.None? && k.Covers(op) && k.CommitAll(names, op).1.Ok? {
      CommitAllReady(k, names, op);
      var (committed, certificates) := k.CommitAll(names, op);
      AppliedEverywhere(j, k, committed, names, op, certificates.value);
    }
  }

  /**
   finalize succeeds exactly when there is a domain, the operation declares each of them once, every one validates it, and
   the committee has weight and has no validator bound to another statement on the same versions, in either phase.
   */
  lemma FinalizeSucceedsExactly(j: Join, op: Operation)
    requires Filed(j.committee)
    ensures j.Finalize(op).1.None? <==> Joinable(j, op)
  {
    var names := SortedNames(j.domains.Keys);
    if j.DomainSet(op) == j.domains.Keys && j.Covers(op) {
      CoveredJoin(j, op);
    } else {
      FinalizeUnfolds(j, op);
      PrepareAllOnly(j, names, op);
      CoversStays(j, j.PrepareAll(names, op).0, op);
    }
    hide *;
  }

  /** After preparing, every validator is on record for the operation's statement. */
  lemma PreparedBinds(d: Domain, c: Committee, op: Operation)
    requires Filed(c) && d.PrepareOp(c, op).2.Ok?
    ensures var voted, key := d.PrepareOp(c, op).1, d.KeyOf(op, Phase.Prepare);
            && voted.validators == c.validators != map[]
            && forall v :: v in c.validators ==>
                 v in Lookup(voted.statements, key) && Lookup(voted.statements, key)[v] == op.Statement()
  {
    var key := d.KeyOf(op, Phase.Prepare);
    PrepareExactly(d, c, op);
    VoteAllExactly(c, key, op.Statement());
    EnoughWeight(VoteWeights(c.validators));
    hide Free, Filed, Domain.Validates, Committee.VoteAll, Committee.IssueCertificate, Committee.VerifyCertificate,
         Committee.Matching, Weight, Lookup;
    var voted := d.PrepareOp(c, op).1;
    assert voted == c.VoteAll(key, op.Statement()).0;
    SignersFiled(voted, key, op.Statement());
  }

  /** Identifier and dependency agree; writes, signer and nonce need not. */
  predicate Agree(a: Operation, b: Operation) {
    a.body.opId == b.body.opId && a.body.parents == b.body.parents && a.body.inputs == b.body.inputs
  }

  lemma AgreeStatements(a: Operation, b: Operation)
    ensures Agree(a, b) <==> a.Statement() == b.Statement()
  {}

  /**
   Once an operation is prepared in a domain, another one on the same versions there is ever prepared exactly when the
   domain validates it and it has the first one's identifier and dependency.
   */
  lemma PreparedReserves(d: Domain, c: Committee, op: Operation, e: Domain, later: Committee, other: Operation)
    requires Filed(c) && d.PrepareOp(c, op).2.Ok? && Remembers(d.PrepareOp(c, op).1, later) && Filed(later)
    requires e.KeyOf(other, Phase.Prepare) == d.KeyOf(op, Phase.Prepare)
    ensures e.PrepareOp(later, other).2.Ok? <==> e.Validates(other) && Agree(op, other)
  {
    PreparedBinds(d, c, op);
    PrepareExactly(d, c, op);
    PrepareExactly(e, later, other);
    AgreeStatements(op, other);
    KeyEpoch(d, op);
    KeyEpoch(e, other);
    hide Filed, Domain.PrepareOp, Domain.Validates, Domain.KeyOf, Operation.Statement, Lookup, Agree;
    SomeValidator(c.validators);
    var v :| v in c.validators;
    assert Bound(later, v, e.KeyOf(other, Phase.Prepare), other.Statement()) <==> other.Statement() != op.Statement();
  }

  lemma KeyEpoch(d: Domain, op: Operation)
    ensures d.KeyOf(op, Phase.Prepare).epoch == d.epoch
  {
    hide VersionsOf;
  }

  lemma SomeValidator(validators: Validators)
    requires validators != map[]
    ensures exists v :: v in validators
  {}
}
