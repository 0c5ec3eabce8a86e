/**
 Votes and certificates of one committee (ccd_nexus/quorum.py).

 Digests are symbolic, so a certificate is kept as what its identifier and statement digest are taken over: the
 conflict key, the statement, and one signature per signer. Sorted version tuples are kept as multisets.
 */
module Committees {
  import opened Results
  import opened Names
  import opened Quorums

  datatype InputRef = InputRef(domainId: string, objectId: string, expectedVersion: int)

  datatype Dependency = Dependency(parents: seq<string>, inputs: seq<InputRef>)

  datatype Phase = Prepare | Commit | OtherPhase(text: string)

  datatype Key = Key(epoch: int, domainId: string, versions: multiset<(string, int)>, phase: Phase)

  datatype Statement = Statement(opId: string, dependency: Dependency)

  datatype VoteSignature = SignedVote(publicKey: string, key: Key, statement: Statement) | OtherVoteBytes(bytes: string)

  datatype Vote = Vote(validatorId: string, key: Key, statement: Statement, signature: VoteSignature)

  datatype Validator = Validator(publicKey: string, weight: nat)

  datatype Certificate = Certificate(key: Key, statement: Statement, signatures: map<string, VoteSignature>)

  datatype Equivocation = Equivocation(validatorId: string, firstOpId: string, secondOpId: string, key: Key)

  type Validators = map<string, Validator>

  function VoteWeights(validators: Validators): map<string, nat> { map v | v in validators :: validators[v].weight }

  function Lookup<T>(table: map<Key, map<string, T>>, key: Key): map<string, T> {
    if key in table then table[key] else map[]
  }

  function SignVote(validators: Validators, v: string, key: Key, statement: Statement): Vote
    requires v in validators
  {
    Vote(v, key, statement, SignedVote(validators[v].publicKey, key, statement))
  }

  datatype Committee = Committee(
    validators: Validators,
    votes: map<Key, map<string, Vote>>,
    statements: map<Key, map<string, Statement>>,
    evidence: seq<Equivocation>)
  {
    ghost function RequiredWeight(): nat { Threshold(VoteWeights(validators)) }

    predicate Admissible(vote: Vote) {
      && vote.validatorId in validators && vote.key.epoch >= 0
      && vote.signature == SignedVote(validators[vote.validatorId].publicKey, vote.key, vote.statement)
    }

    predicate Equivocates(vote: Vote) {
      var known := Lookup(statements, vote.key);
      vote.validatorId in known && known[vote.validatorId] != vote.statement
    }

    /** The committee after the vote, and whether it was taken rather than refused. */
    function RecordVote(vote: Vote): (Committee, bool) {
      var known := Lookup(statements, vote.key);
      if !Admissible(vote) then (this, false)
      else if Equivocates(vote) then
        var first := known[vote.validatorId].opId;
        (this.(evidence := evidence + [Equivocation(vote.validatorId, first, vote.statement.opId, vote.key)]), false)
      else
        (this.(statements := statements[vote.key := known[vote.validatorId := vote.statement]],
               votes := votes[vote.key := Lookup(votes, vote.key)[vote.validatorId := vote]]),
         true)
    }

    function Matching(key: Key, statement: Statement): map<string, VoteSignature> {
      var cast := Lookup(votes, key);
      map v | v in cast && cast[v].statement == statement :: cast[v].signature
    }

    ghost function IssueCertificate(key: Key, statement: Statement): Option<Certificate> {
      var signatures := Matching(key, statement);
      if Weight(VoteWeights(validators), signatures.Keys) < RequiredWeight() then None
      else Some(Certificate(key, statement, signatures))
    }

    ghost predicate VerifyCertificate(certificate: Certificate, key: Key, statement: Statement) {
      && certificate.key == key && certificate.statement == statement && !key.phase.OtherPhase?
      && certificate.signatures.Keys <= validators.Keys
      && Weight(VoteWeights(validators), certificate.signatures.Keys) >= RequiredWeight()
      && forall v :: v in certificate.signatures ==>
           certificate.signatures[v] == SignedVote(validators[v].publicKey, key, statement)
    }

    /** All of these validators vote in turn, up to the first refusal. */
    function RecordAll(names: seq<string>, key: Key, statement: Statement): (Committee, bool)
      requires forall i :: 0 <= i < |names| ==> names[i] in validators
      decreases |names|
    {
      if names == [] then (this, true)
      else
        var (c, ok) := RecordVote(SignVote(validators, names[0], key, statement));
        if !ok then (c, false) else c.RecordAll(names[1..], key, statement)
    }

    function VoteAll(key: Key, statement: Statement): (Committee, bool) {
      NamesIn();
      RecordAll(SortedNames(validators.Keys), key, statement)
    }

    lemma NamesIn()
      ensures var names := SortedNames(validators.Keys); forall i :: 0 <= i < |names| ==> names[i] in validators
    {
      var names := SortedNames(validators.Keys);
      forall i | 0 <= i < |names| ensures names[i] in validators { assert names[i] in names; }
    }
  }

  // ----- One statement per conflict key

  predicate VoteFiled(c: Committee, key: Key, v: string)
    requires v in Lookup(c.votes, key)
  {
    var vote := Lookup(c.votes, key)[v];
    && v in Lookup(c.statements, key) && Lookup(c.statements, key)[v] == vote.statement
    && v in c.validators && vote.signature == SignedVote(c.validators[v].publicKey, key, vote.statement)
  }

  /** Every vote held is by a validator, signed, and for the statement that validator is on record with. */
  ghost predicate Filed(c: Committee) {
    forall key, v :: v in Lookup(c.votes, key) ==> VoteFiled(c, key, v)
  }

  /** No validator's recorded statement for a key is ever replaced. */
  ghost predicate Remembers(c: Committee, d: Committee) {
    && d.validators == c.validators
    && forall key, v :: v in Lookup(c.statements, key) ==>
         v in Lookup(d.statements, key) && Lookup(d.statements, key)[v] == Lookup(c.statements, key)[v]
  }

  lemma RecordVoteKeeps(c: Committee, vote: Vote)
    requires Filed(c)
    ensures Filed(c.RecordVote(vote).0) && Remembers(c, c.RecordVote(vote).0)
  {
    var d := c.RecordVote(vote).0;
    forall key, v | v in Lookup(d.votes, key) ensures VoteFiled(d, key, v) {
      if v in Lookup(c.votes, key) { assert VoteFiled(c, key, v); }
    }
  }

  lemma RemembersThrough(c: Committee, d: Committee, e: Committee)
    requires Remembers(c, d) && Remembers(d, e)
    ensures Remembers(c, e)
  {}

  lemma {:induction false} RecordAllKeeps(c: Committee, names: seq<string>, key: Key, statement: Statement)
    requires Filed(c) && forall i :: 0 <= i < |names| ==> names[i] in c.validators
    ensures var d := c.RecordAll(names, key, statement).0; Filed(d) && Remembers(c, d)
    decreases |names|
  {
    hide Filed, Committee.RecordVote;
    if names != [] {
      var vote := SignVote(c.validators, names[0], key, statement);
      RecordVoteKeeps(c, vote);
      var (d, ok) := c.RecordVote(vote);
      if ok {
        RecordAllKeeps(d, names[1..], key, statement);
        RemembersThrough(c, d, d.RecordAll(names[1..], key, statement).0);
      }
    }
  }

  lemma {:induction false} RecordAllSigns(c: Committee, names: seq<string>, key: Key, statement: Statement)
    requires forall i :: 0 <= i < |names| ==> names[i] in c.validators
    requires c.RecordAll(names, key, statement).1
    ensures var d := c.RecordAll(names, key, statement).0;
            && d.validators == c.validators
            && (forall v :: v in c.Matching(key, statement) ==> v in d.Matching(key, statement))
            && (forall i :: 0 <= i < |names| ==> names[i] in d.Matching(key, statement))
    decreases |names|
  {
    if names != [] {
      var (d, ok) := c.RecordVote(SignVote(c.validators, names[0], key, statement));
      assert forall v :: v in c.Matching(key, statement) ==> v in d.Matching(key, statement);
      assert names[0] in d.Matching(key, statement);
      hide Committee.RecordVote, Committee.Matching;
      RecordAllSigns(d, names[1..], key, statement);
      assert names == [names[0]] + names[1..];
    }
  }

  lemma SignersFiled(c: Committee, key: Key, statement: Statement)
    requires Filed(c)
    ensures c.Matching(key, statement).Keys <= c.validators.Keys
    ensures forall v :: v in c.Matching(key, statement) ==>
              && v in Lookup(c.statements, key) && Lookup(c.statements, key)[v] == statement
              && c.Matching(key, statement)[v] == SignedVote(c.validators[v].publicKey, key, statement)
  {
    forall v | v in c.Matching(key, statement)
      ensures v in c.validators && v in Lookup(c.statements, key) && Lookup(c.statements, key)[v] == statement
              && c.Matching(key, statement)[v] == SignedVote(c.validators[v].publicKey, key, statement)
    {
      assert VoteFiled(c, key, v);
    }
  }

  /** A certificate the committee issues passes its own verification. */
  lemma IssuedVerifies(c: Committee, key: Key, statement: Statement)
    requires Filed(c) && c.IssueCertificate(key, statement).Some? && !key.phase.OtherPhase?
    ensures c.VerifyCertificate(c.IssueCertificate(key, statement).value, key, statement)
  {
    SignersFiled(c, key, statement);
    hide Filed, Committee.Matching, Weight;
  }

  /**
   One committee never issues certificates for two statements, of operation identifier and dependency, on one conflict key,
   however much later.
   */
  lemma OneStatementPerKey(c: Committee, d: Committee, key: Key, first: Statement, second: Statement)
    requires Filed(c) && Filed(d) && Remembers(c, d)
    requires c.IssueCertificate(key, first).Some? && d.IssueCertificate(key, second).Some?
    ensures first == second
  {
    SignersFiled(c, key, first);
    SignersFiled(d, key, second);
    hide Filed, Committee.Matching, Weight;
    var weights := VoteWeights(c.validators);
    var a, b := c.Matching(key, first).Keys, d.Matching(key, second).Keys;
    assert weights.Keys == c.validators.Keys;
    QuorumsMeet(weights, a, b);
    PositiveWeight(weights, a * b);
  }

  function CastAll(c: Committee, votes: seq<Vote>): Committee {
    if votes == [] then c else CastAll(c, votes[..|votes| - 1]).RecordVote(votes[|votes| - 1]).0
  }

  lemma {:induction false} CastAllKeeps(c: Committee, votes: seq<Vote>)
    requires Filed(c)
    ensures Filed(CastAll(c, votes)) && Remembers(c, CastAll(c, votes))
  {
    hide Filed, Committee.RecordVote;
    if votes != [] {
      var before := CastAll(c, votes[..|votes| - 1]);
      CastAllKeeps(c, votes[..|votes| - 1]);
      RecordVoteKeeps(before, votes[|votes| - 1]);
      RemembersThrough(c, before, CastAll(c, votes));
    }
  }

  lemma {:induction false} CastAllSplits(c: Committee, votes: seq<Vote>, more: seq<Vote>)
    ensures CastAll(c, votes + more) == CastAll(CastAll(c, votes), more)
  {
    hide Committee.RecordVote;
    if more == [] {
      assert votes + more == votes;
    } else {
      assert (votes + more)[..|votes + more| - 1] == votes + more[..|more| - 1];
      CastAllSplits(c, votes, more[..|more| - 1]);
    }
  }

  /** Whatever votes arrive, from whomever, certificates issued along the way never differ in statement on a conflict key. */
  lemma NoTwoCertificates(validators: Validators, votes: seq<Vote>, more: seq<Vote>, key: Key, first: Statement,
                          second: Statement)
    requires var c := Committee(validators, map[], map[], []);
             && CastAll(c, votes).IssueCertificate(key, first).Some?
             && CastAll(c, votes + more).IssueCertificate(key, second).Some?
    ensures first == second
  {
    hide Committee.IssueCertificate, CastAll;
    var c := Committee(validators, map[], map[], []);
    CastAllKeeps(c, votes);
    hide Filed;
    CastAllSplits(c, votes, more);
    CastAllKeeps(CastAll(c, votes), more);
    OneStatementPerKey(CastAll(c, votes), CastAll(c, votes + more), key, first, second);
  }
}
