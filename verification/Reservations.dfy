/**
 A join reserves the versions it prepares, and one that fails afterwards never gives them back: the objects keep those
 versions, and no operation with another identifier or dependency can be prepared on them again.
 */
module Reservations {
  import opened Results
  import opened Names
  import opened Quorums
  import opened Committees
  import opened Domains
  import opened Joins
  import opened JoinRuns
  import opened JoinOutcomes

  /** A committee of some weight is on record, all of it, for this statement. */
  ghost predicate Reserved(c: Committee, key: Key, statement: Statement) {
    && Total(VoteWeights(c.validators)) > 0 && key.epoch >= 0
    && forall v :: v in c.validators ==> v in Lookup(c.statements, key) && Lookup(c.statements, key)[v] == statement
  }

  lemma ReservedStays(c: Committee, d: Committee, key: Key, statement: Statement)
    requires Reserved(c, key, statement) && Remembers(c, d)
    ensures Reserved(d, key, statement)
  {
    hide Lookup, Total;
  }

  lemma ReservedIsFree(c: Committee, key: Key, statement: Statement, other: Statement)
    requires Reserved(c, key, statement)
    ensures Free(c, key, other) <==> other == statement
  {
    EnoughWeight(VoteWeights(c.validators));
    hide Lookup, Total;
    if other != statement {
      SomeValidator(c.validators);
      var v :| v in c.validators;
      assert Bound(c, v, key, other);
    }
  }

  /** Of the operations on reserved versions, a domain can prepare those with the reserving statement, if it validates them. */
  lemma ReservedExactly(j: Join, id: string, op: Operation, other: Operation)
    requires Filed(j.committee) && id in j.domains
    requires Reserved(j.committee, j.domains[id].KeyOf(other, Phase.Prepare), op.Statement())
    ensures j.domains[id].PrepareOp(j.committee, other).2.Ok? <==> j.domains[id].Validates(other) && Agree(op, other)
    ensures !Agree(op, other) ==> j.Finalize(other).1.Some?
  {
    ReservedIsFree(j.committee, j.domains[id].KeyOf(other, Phase.Prepare), op.Statement(), other.Statement());
    PrepareExactly(j.domains[id], j.committee, other);
    FinalizeSucceedsExactly(j, other);
    AgreeStatements(op, other);
    KeyEpoch(j.domains[id], other);
    hide Free, Filed, Domain.PrepareOp, Domain.Validates, Domain.KeyOf, Join.Finalize, Weight, Total, Lookup,
         Agree, Operation.Statement, Join.DomainSet, Join.Covers;
  }

  lemma PreparedReserved(d: Domain, c: Committee, op: Operation)
    requires Filed(c) && d.PrepareOp(c, op).2.Ok?
    ensures Reserved(d.PrepareOp(c, op).1, d.KeyOf(op, Phase.Prepare), op.Statement())
  {
    PreparedBinds(d, c, op);
    PrepareExactly(d, c, op);
    KeyEpoch(d, op);
    hide Filed, Domain.PrepareOp, Domain.KeyOf, Domain.Validates, Lookup, Total, Free;
  }

  lemma {:induction false} PrepareAllReserves(j: Join, names: seq<string>, op: Operation, n: nat)
    requires Filed(j.committee) && Apart(j, names) && n < |names| && AllAble(j, names[..n + 1], op, Phase.Prepare)
    ensures Reserved(j.PrepareAll(names, op).0.committee, j.domains[names[n]].KeyOf(op, Phase.Prepare), op.Statement())
    decreases |names|
  {
    hide Able, Filed, Reserved, OnlyPrepared, SameElsewhere, Remembers, Domain.PrepareOp;
    assert names[..n + 1][0] == names[0];
    PrepareOne(j, names[0], op);
    var (d, voted, r) := j.domains[names[0]].PrepareOp(j.committee, op);
    var next := Join(j.domains[names[0] := d], voted);
    var k := next.PrepareAll(names[1..], op).0;
    if n == 0 {
      PreparedReserved(j.domains[names[0]], j.committee, op);
      PrepareAllKeeps(next, names[1..], op);
      ReservedStays(voted, k.committee, j.domains[names[0]].KeyOf(op, Phase.Prepare), op.Statement());
    } else {
      var first := names[..n + 1];
      assert first[1..] == names[1..][..n];
      RestAble(j, next, names, op, Phase.Prepare, j.domains[names[0]].KeyOf(op, Phase.Prepare));
      RestAble(j, next, first, op, Phase.Prepare, j.domains[names[0]].KeyOf(op, Phase.Prepare));
      PrepareAllReserves(next, names[1..], op, n - 1);
    }
  }

  lemma FinalizeRemembersPrepared(j: Join, op: Operation)
    requires Filed(j.committee) && j.DomainSet(op) == j.domains.Keys
    ensures Remembers(j.PrepareAll(SortedNames(j.domains.Keys), op).0.committee, j.Finalize(op).0.committee)
  {
    hide Filed, Remembers, Join.PrepareAll, Join.CommitAll, Join.ApplyAll, Join.Covers, Join.DomainSet, SortedNames;
    var names := SortedNames(j.domains.Keys);
    PrepareAllKeeps(j, names, op);
    var prepared := j.PrepareAll(names, op).0;
    RemembersSelf(prepared.committee);
    CommitAllKeeps(prepared, names, op);
    var (committed, certificates) := prepared.CommitAll(names, op);
    if certificates.Ok? { ApplyAllCommittee(committed, names, op, certificates.value); }
  }

  /**
   A join of a properly declared operation that fails after its first n + 1 domains could prepare leaves the objects of
   each of them as they were; and from then on, of the operations on the versions it prepared there, exactly the valid ones
   with its identifier and dependency can be prepared, and no join of any other succeeds.
   */
  lemma FailedJoinReserves(j: Join, op: Operation, n: nat, later: Join, id: string, other: Operation)
    requires Filed(j.committee) && j.DomainSet(op) == j.domains.Keys && j.Covers(op)
    requires n < |SortedNames(j.domains.Keys)| && AllAble(j, SortedNames(j.domains.Keys)[..n + 1], op, Phase.Prepare)
    requires j.Finalize(op).1.Some?
    requires Remembers(j.Finalize(op).0.committee, later.committee) && Filed(later.committee) && id in later.domains
    requires var name := SortedNames(j.domains.Keys)[n];
             name in j.domains && later.domains[id].KeyOf(other, Phase.Prepare) == j.domains[name].KeyOf(op, Phase.Prepare)
    ensures var name, k := SortedNames(j.domains.Keys)[n], j.Finalize(op).0;
            name in k.domains && Untouched(j.domains[name], k.domains[name])
    ensures later.domains[id].PrepareOp(later.committee, other).2.Ok? <==>
              later.domains[id].Validates(other) && Agree(op, other)
    ensures !Agree(op, other) ==> later.Finalize(other).1.Some?
  {
    var names := SortedNames(j.domains.Keys);
    hide *;
    CoversApart(j, op);
    FinalizeAtomic(j, op);
    PrepareAllReserves(j, names, op, n);
    FinalizeRemembersPrepared(j, op);
    var key := j.domains[names[n]].KeyOf(op, Phase.Prepare);
    ReservedStays(j.PrepareAll(names, op).0.committee, j.Finalize(op).0.committee, key, op.Statement());
    ReservedStays(j.Finalize(op).0.committee, later.committee, key, op.Statement());
    ReservedExactly(later, id, op, other);
  }

  /** The first of two domains prepares, and the second refuses. */
  lemma SecondRefuses(j: Join, op: Operation, a: string, b: string)
    requires Filed(j.committee) && j.DomainSet(op) == j.domains.Keys && j.Covers(op)
    requires SortedNames(j.domains.Keys) == [a, b] && a in j.domains && b in j.domains
    requires !Able(j.domains[b], j.committee, op, Phase.Prepare)
    ensures var (k, failed) := j.Finalize(op);
            failed.Some? && a in k.domains && OnlyPrepared(j.domains[a], k.domains[a])
  {
    var names := SortedNames(j.domains.Keys);
    hide *;
    CoversApart(j, op);
    PrepareAllExactly(j, names, op);
    PrepareAllOnly(j, names, op);
    NotAllAble(j, names, op, 1);
    PreparingFails(j, op);
    OnlyPreparedIn(j, j.PrepareAll(names, op).0, a);
  }

  lemma NotAllAble(j: Join, names: seq<string>, op: Operation, i: nat)
    requires i < |names| && names[i] in j.domains && !Able(j.domains[names[i]], j.committee, op, Phase.Prepare)
    ensures !AllAble(j, names, op, Phase.Prepare)
  {
    hide Able;
  }

  lemma PreparingFails(j: Join, op: Operation)
    requires j.DomainSet(op) == j.domains.Keys && j.PrepareAll(SortedNames(j.domains.Keys), op).1.Some?
    ensures j.Finalize(op) == j.PrepareAll(SortedNames(j.domains.Keys), op)
  {
    hide Join.PrepareAll, SortedNames;
  }

  lemma OnlyPreparedIn(j: Join, k: Join, id: string)
    requires AllOnlyPrepared(j, k) && id in j.domains
    ensures id in k.domains && OnlyPrepared(j.domains[id], k.domains[id])
  {
    hide OnlyPrepared;
  }

  lemma FirstAble(j: Join, names: seq<string>, op: Operation)
    requires names != [] && names[0] in j.domains && Able(j.domains[names[0]], j.committee, op, Phase.Prepare)
    ensures AllAble(j, names[..1], op, Phase.Prepare)
  {
    hide Able;
  }

  /** What its own domain could prepare before that join, it validates still and refuses. */
  lemma FailedJoinBlocks(j: Join, op: Operation, a: string, b: string, other: Operation)
    requires Filed(j.committee) && j.DomainSet(op) == j.domains.Keys && j.Covers(op)
    requires SortedNames(j.domains.Keys) == [a, b] && a in j.domains && b in j.domains
    requires Able(j.domains[a], j.committee, op, Phase.Prepare) && !Able(j.domains[b], j.committee, op, Phase.Prepare)
    requires Able(j.domains[a], j.committee, other, Phase.Prepare) && !Agree(op, other)
    requires j.domains[a].KeyOf(op, Phase.Prepare) == j.domains[a].KeyOf(other, Phase.Prepare)
    ensures var (k, failed) := j.Finalize(op);
            && j.domains[a].PrepareOp(j.committee, other).2.Ok?
            && failed.Some? && a in k.domains && k.domains[a].Validates(other)
            && k.domains[a].PrepareOp(k.committee, other).2.Err?
  {
    var k := j.Finalize(op).0;
    hide *;
    SecondRefuses(j, op, a, b);
    AbleMeans(j.domains[a], j.committee, other, Phase.Prepare);
    PrepareExactly(j.domains[a], j.committee, other);
    SameValidation(j.domains[a], k.domains[a], other);
    KeyUnchanged(j.domains[a], k.domains[a], other);
    FinalizeKeeps(j, op);
    RemembersSelf(k.committee);
    FirstAble(j, SortedNames(j.domains.Keys), op);
    FailedJoinReserves(j, op, 0, k, a, other);
  }

  lemma KeyUnchanged(d: Domain, e: Domain, op: Operation)
    requires OnlyPrepared(d, e)
    ensures e.KeyOf(op, Phase.Prepare) == d.KeyOf(op, Phase.Prepare) && e.domainId == d.domainId
  {}

  // ----- A concrete one

  const VALIDATORS: Validators := map["validator" := Validator("key", 1)]

  /** Domains "a" and "b", with an object each; the one in "b" belongs to somebody else. */
  function TwoDomains(): Join {
    Join(map["a" := Domain("a", 0, map["object" := ObjectState(0, "alice", "", "a")], {}, map[], map[]),
             "b" := Domain("b", 0, map["object" := ObjectState(0, "bob", "", "b")], {}, map[], map[])],
         Committee(VALIDATORS, map[], map[], []))
  }

  function Input(domainId: string): InputRef { InputRef(domainId, "object", 0) }

  function Write(domainId: string): WriteIntent { WriteIntent(domainId, "object", 0, "carol", "") }

  function SignedBody(body: OperationBody): Operation { Operation(body, SignedOperation(body.signerPublicKey, body)) }

  /** Alice's operation on both objects. */
  function Both(): Operation {
    SignedBody(OperationBody("both", 0, "alice", "alice key", ["a", "b"], [Input("a"), Input("b")],
                             [Write("a"), Write("b")], [], 0))
  }

  /** Alice's operation on her own object, at the version it still has. */
  function Alone(): Operation {
    SignedBody(OperationBody("alone", 0, "alice", "alice key", ["a"], [Input("a")], [Write("a")], [], 1))
  }

  lemma NamesInOrder()
    ensures SortedNames({"a", "b"}) == ["a", "b"]
  {
    var r := SortedNames({"a", "b"});
    assert StringLess("a", "b") && !StringLess("b", "a");
    assert |{"a", "b"}| == 2;
    SortedNamesIncreases({"a", "b"}, 0, 1);
    assert r[0] in r && r[1] in r;
    assert "a" in r;
  }

  lemma OnlyVersionOf(domainId: string)
    requires domainId == "a"
    ensures VersionsOf(Both().body.inputs, domainId) == VersionsOf(Alone().body.inputs, domainId)
  {
    var inputs := Both().body.inputs;
    assert inputs[..1] == [Input("a")];
  }

  lemma BothPaired()
    ensures Paired(Both().body)
  {
    var b := Both().body;
    assert Targets(b.inputs[0], b.writes[0]) && Targets(b.inputs[1], b.writes[1]);
    assert HasWrite(b.inputs[0], b.writes) && HasWrite(b.inputs[1], b.writes);
    assert HasInput(b.writes[0], b.inputs) && HasInput(b.writes[1], b.inputs);
  }

  lemma AlonePaired()
    ensures Paired(Alone().body)
  {
    var b := Alone().body;
    assert Targets(b.inputs[0], b.writes[0]);
  }

  lemma BothDeclared()
    ensures DeclaresDomains(Both().body) && DeclaresDomains(Alone().body)
  {
    var b, one := Both().body, Alone().body;
    assert b.inputs[0].domainId == b.domainIds[0] && b.inputs[1].domainId == b.domainIds[1];
    assert one.inputs[0].domainId == one.domainIds[0];
  }

  lemma AliceValidates()
    ensures TwoDomains().domains["a"].Validates(Both()) && TwoDomains().domains["a"].Validates(Alone())
  {
    BothPaired();
    AlonePaired();
    BothDeclared();
    hide Paired, DeclaresDomains;
    assert Both().body.inputs == [Input("a"), Input("b")] && Alone().body.inputs == [Input("a")];
  }

  lemma BobRefuses()
    ensures !TwoDomains().domains["b"].Validates(Both())
  {
    var b := Both().body;
    assert !TwoDomains().domains["b"].InputReady(b, b.inputs[1]);
    hide Domain.InputReady;
  }

  lemma ValidatorWeight()
    ensures Total(VoteWeights(VALIDATORS)) == 1
  {
    assert VoteWeights(VALIDATORS).Keys == {"validator"};
    WeightRemove(VoteWeights(VALIDATORS), {"validator"}, "validator");
  }

  lemma NobodyBound(op: Operation)
    ensures Certifiable(TwoDomains().domains["a"], TwoDomains().committee, op, Phase.Prepare) && Filed(TwoDomains().committee)
  {
    ValidatorWeight();
    hide VersionsOf, Total;
  }

  lemma ProperlyDeclared()
    ensures TwoDomains().DomainSet(Both()) == TwoDomains().domains.Keys == {"a", "b"} && TwoDomains().Covers(Both())
  {
    var j := TwoDomains();
    assert j.DomainSet(Both()) == {"a", "b"};
    assert "a" in j.domains;
    assert (set id | id in j.domains :: j.domains[id].domainId) == {"a", "b"} by {
      assert j.domains["a"].domainId == "a" && j.domains["b"].domainId == "b";
    }
    assert |{"a", "b"}| == 2;
  }

  lemma Declared()
    ensures var j := TwoDomains();
            && Filed(j.committee) && j.DomainSet(Both()) == j.domains.Keys && j.Covers(Both())
            && SortedNames(j.domains.Keys) == ["a", "b"]
  {
    ProperlyDeclared();
    NamesInOrder();
    NobodyBound(Both());
    hide TwoDomains, Both, Filed, SortedNames, Join.Covers, Join.DomainSet;
  }

  lemma Conflicting()
    ensures "a" in TwoDomains().domains && !Agree(Both(), Alone())
    ensures var d := TwoDomains().domains["a"]; d.KeyOf(Both(), Phase.Prepare) == d.KeyOf(Alone(), Phase.Prepare)
  {
    SameKey(TwoDomains().domains["a"]);
    DifferentStatements();
    hide Both, Alone, Domain.KeyOf, Agree;
  }

  lemma WhoIsAble()
    ensures var j := TwoDomains();
            && "a" in j.domains && "b" in j.domains && j.domains["a"].domainId == "a"
            && Able(j.domains["a"], j.committee, Both(), Phase.Prepare)
            && Able(j.domains["a"], j.committee, Alone(), Phase.Prepare)
            && !Able(j.domains["b"], j.committee, Both(), Phase.Prepare)
  {
    AliceValidates();
    BobRefuses();
    NobodyBound(Both());
    NobodyBound(Alone());
    hide Domain.Validates, Certifiable;
  }

  lemma DifferentStatements()
    ensures !Agree(Both(), Alone())
  {}

  lemma SameKey(d: Domain)
    requires d.domainId == "a"
    ensures d.KeyOf(Both(), Phase.Prepare) == d.KeyOf(Alone(), Phase.Prepare)
  {
    OnlyVersionOf("a");
    hide VersionsOf;
  }

  // ----- How it is reached

  function EmptyDomain(id: string): Domain { Domain(id, 0, map[], {}, map[], map[]) }

  function EmptyHistory(): History {
    History(Join(map["a" := EmptyDomain("a"), "b" := EmptyDomain("b")], Committee(VALIDATORS, map[], map[], [])),
            map["a" := [], "b" := []], map["a" := map[], "b" := map[]])
  }

  const ADDING: seq<JoinOp> :=
    [Add("a", "object", ObjectState(0, "alice", "", "a")), Add("b", "object", ObjectState(0, "bob", "", "b"))]

  lemma AddingSteps()
    ensures Step(Step(EmptyHistory(), ADDING[0]), ADDING[1]).join == TwoDomains()
  {
    hide VersionsOf;
  }

  lemma EmptyIsSound()
    ensures Sound(EmptyHistory())
  {
    assert Fresh(EmptyHistory());
    FreshIsSound(EmptyHistory());
  }

  /** The two domains come from empty ones by adding their objects. */
  lemma TwoDomainsReached()
    ensures Sound(EmptyHistory()) && Run(EmptyHistory(), ADDING).join == TwoDomains()
  {
    EmptyIsSound();
    AddingSteps();
    assert ADDING[..1][..0] == [] && ADDING[..1][0] == ADDING[0];
    hide Step, EmptyHistory, TwoDomains, Sound;
    assert Run(EmptyHistory(), ADDING[..1]) == Step(EmptyHistory(), ADDING[0]);
  }

  /**
   Bob does not take part, so the join of both objects fails. Alice's own operation, which her domain would have prepared
   before, is valid there still, and refused.
   */
  lemma FailedJoinBlocksAlice()
    ensures "a" in Run(EmptyHistory(), ADDING).join.domains
    ensures var j := Run(EmptyHistory(), ADDING).join; var (k, failed) := j.Finalize(Both());
            && j.domains["a"].PrepareOp(j.committee, Alone()).2.Ok?
            && failed.Some? && "a" in k.domains && k.domains["a"].Validates(Alone())
            && k.domains["a"].PrepareOp(k.committee, Alone()).2.Err?
  {
    hide *;
    TwoDomainsReached();
    Declared();
    WhoIsAble();
    Conflicting();
    FailedJoinBlocks(TwoDomains(), Both(), "a", "b", Alone());
  }
}
