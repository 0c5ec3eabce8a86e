/**
 Two rounds a stride apart that share a reward epoch, in a run from an empty coordinator: the first settles, and the
 second takes its fines and then raises.
 */
module CollidingRounds {
  import opened Results
  import opened Names
  import opened Sums
  import opened Settlement
  import opened Books
  import opened Rewards
  import opened Membership
  import opened MembershipRuns
  import opened FirstStay
  import opened Beacon
  import opened PenaltyRuns
  import opened RoundSettlements
  import opened BeaconRuns
  import opened CoordinatedRuns

  const FAR: int := REWARD_EPOCH_STRIDE
  const TREASURE := MemberOp.Fund("treasury", 20, None)
  const SECOND_BOND := StakeBond(BondStatement("second", "owner", "key", 1, "asset", 0, 0),
                                 SignedBond("key", BondStatement("second", "owner", "key", 1, "asset", 0, 0)))
  const SECOND_REQUEST := AdmissionStatement("two", "key", 1, "two", 0, Some("second"))
  const SECOND := MemberOp.Admit(AdmissionRequest(SECOND_REQUEST, SignedAdmission("key", SECOND_REQUEST)), Some(SECOND_BOND))

  function Opened(): Rounds { Rounds(Fresh(1), map[], map[], map[]) }

  function Rich(): Registry {
    var l := Admitted(1).ledger;
    Admitted(1).(ledger := l.(balances := map["owner" := 15, "treasury" := 20],
                              events := l.events + {SettlementEvent(Kind.Fund, 0, "treasury", 20, "asset",
                                                                    FundSource("treasury", 20, 0))}))
  }

  /** The validators "one" and "two", with stakes of 5 and 1, and 20 in the treasury. */
  function Staffed(): Registry {
    var l := Rich().ledger;
    Rich().(ledger := l.(balances := map["owner" := 14, "treasury" := 20],
                         bonds := map["bond" := Position(5), "second" := Position(1)],
                         events := l.events + {SettlementEvent(BondStake, 0, "owner", 1, "asset", Name("second"))}),
            records := map["one" := ValidatorRecord("key", 5, "one", true, 0, false),
                           "two" := ValidatorRecord("key", 1, "two", true, 0, false)],
            deposits := {"one", "two"}, bondOf := map["one" := "bond", "two" := "second"])
  }

  lemma Enriches()
    ensures Do(Admitted(1), TREASURE) == Rich()
  {}

  lemma Staffs()
    ensures Do(Rich(), SECOND) == Staffed()
  {}

  function CommitmentOf(v: string, epoch: int, round: int): Commitment {
    var s := CommitmentStatement(v, epoch, round, HashOf("secret"));
    Commitment(s, OnCommitment("key", s))
  }

  function RevealOf(v: string, epoch: int, round: int): Reveal {
    var s := RevealStatement(v, epoch, round, "secret", HashOf("secret"));
    Reveal(s, OnReveal("key", s))
  }

  // ----- The first round

  /** "one" has committed and revealed in the far round of epoch 0. */
  function FirstRound(): Rounds {
    Rounds(Staffed(), map[(0, FAR, "one") := CommitmentOf("one", 0, FAR)], map[(0, FAR, "one") := RevealOf("one", 0, FAR)], map[])
  }

  lemma FirstSubmissions()
    ensures var b := Rounds(Staffed(), map[], map[], map[]);
            DoRound(DoRound(b, SubmitCommitment(CommitmentOf("one", 0, FAR))), SubmitReveal(RevealOf("one", 0, FAR)))
            == FirstRound()
  {}

  lemma FreshIsOrderly()
    ensures Orderly(Fresh(1))
  {}

  lemma StaffedIsOrderly()
    ensures Orderly(Staffed())
  {
    FreshIsOrderly();
    FundOwner(1);
    AdmitOne(1);
    Enriches();
    Staffs();
    hide *;
    MemberStep(Fresh(1), FUNDING);
    MemberStep(OwnerFunded(1), ADMISSION);
    MemberStep(Admitted(1), TREASURE);
    MemberStep(Rich(), SECOND);
  }

  lemma MemberStep(r: Registry, op: MemberOp)
    requires Orderly(r) && (op.Admit? || op.Fund?)
    ensures Orderly(Do(r, op))
  {
    hide Orderly, Do;
    StepExactly(r, op);
  }

  lemma StaffedWeights()
    ensures ActiveStakes(Staffed()).Keys == {"one", "two"} && StakeThreshold(Staffed()) == 5
    ensures SumOver(ActiveStakes(Staffed()), {"one"}) == 5
  {
    var w := ActiveStakes(Staffed());
    assert w.Keys == {"one", "two"};
    assert w["one"] == 5 && w["two"] == 1;
    SumOverRemove(w, {"one"}, "one");
    SumOverRemove(w, {"one", "two"}, "two");
    assert {"one", "two"} - {"two"} == {"one"} && {"one"} - {"one"} == {};
  }

  lemma FirstSets()
    ensures var b := FirstRound(); b.Committed(FAR) == {"one"} && b.Revealed(FAR) == {"one"} && b.Silent(FAR) == {}
  {
    var b := FirstRound();
    assert (0, FAR, "one") in b.commitments.Keys && (0, FAR, "one") in b.openings.Keys;
    assert b.Committed(FAR) == {"one"};
  }

  lemma FirstSettleable()
    ensures FirstRound().Settleable(FAR, 1, 0) && Coordinated(FirstRound()) && !Collides(FirstRound(), FAR, 1)
  {
    FirstSets();
    StaffedWeights();
    StaffedIsOrderly();
    var b := FirstRound();
    hide Orderly, Rounds.Committed, Rounds.Revealed, ActiveStakes, StakeThreshold, SumOver;
    assert b.Standing(FAR);
    assert b.RevealOpens(FAR, "one");
    assert b.WeightOf(b.Revealed(FAR)) == 5;
  }

  /** What the first round leaves: its reward epoch settled, and enough in the treasury for another reward. */
  ghost predicate FirstSettled(b: Rounds, l: Ledger, s: RoundSettlement) {
    && b == FirstRound().(registry := Staffed().(ledger := l), settlements := map[(0, FAR) := s])
    && l == Staffed().ledger.(balances := l.balances, events := l.events, settledRewardEpochs := {FAR})
    && l.BalanceOf("treasury") >= 1 && Coordinated(b)
  }

  lemma FirstSettles() returns (l: Ledger, s: RoundSettlement)
    ensures FirstSettled(FirstRound().Finalize(FAR, 1, 0).rounds, l, s)
  {
    FirstSettleable();
    FirstSets();
    var b := FirstRound();
    hide Coordinated, Rounds.Settleable, Rounds.Finalize, Collides, Rounds.Revealed, Rounds.Committed, AllFinable, AllKnown,
         Recipients, Balance, Orderly, Sound;
    FinalizeKeeps(b, FAR, 1, 0);
    var m, q := Stages(b, FAR, 1, 0);
    assert m == Staffed();
    l, s := q, b.Finalize(FAR, 1, 0).result.value;
    OwnedNonNegative(m.ledger, Recipients(m, {"one"}), "treasury");
  }

  lemma {:induction false} OwnedNonNegative(l: Ledger, names: seq<string>, a: string)
    requires AllKnown(l, names)
    ensures Owned(l.bonds, names, a) >= 0
    decreases |names|
  {
    if names != [] { OwnedNonNegative(l, names[1..], a); }
  }

  // ----- The second round

  /** The epoch advanced; both validators commit to round 0, and only "one" reveals. */
  function SecondRound(b: Rounds): Rounds {
    b.(registry := b.registry.(epoch := 1),
       commitments := b.commitments[(1, 0, "one") := CommitmentOf("one", 1, 0)][(1, 0, "two") := CommitmentOf("two", 1, 0)],
       openings := b.openings[(1, 0, "one") := RevealOf("one", 1, 0)])
  }

  const ADVANCE := Members(AdvanceEpoch)
  const COMMIT_ONE := SubmitCommitment(CommitmentOf("one", 1, 0))
  const COMMIT_TWO := SubmitCommitment(CommitmentOf("two", 1, 0))
  const OPEN_ONE := SubmitReveal(RevealOf("one", 1, 0))

  lemma SubmitsCommitment(b: Rounds, v: string)
    requires b.registry.epoch == 1 && b.registry.IsActive(v) && b.registry.records[v].publicKey == "key"
    requires (1, 0, v) !in b.commitments
    ensures DoRound(b, SubmitCommitment(CommitmentOf(v, 1, 0)))
         == b.(commitments := b.commitments[(1, 0, v) := CommitmentOf(v, 1, 0)])
  {
    hide Registry.IsActive;
  }

  lemma SubmitsReveal(b: Rounds, v: string)
    requires b.registry.epoch == 1 && b.registry.IsActive(v) && b.registry.records[v].publicKey == "key"
    requires (1, 0, v) in b.commitments && b.commitments[(1, 0, v)] == CommitmentOf(v, 1, 0) && (1, 0, v) !in b.openings
    ensures DoRound(b, SubmitReveal(RevealOf(v, 1, 0))) == b.(openings := b.openings[(1, 0, v) := RevealOf(v, 1, 0)])
  {
    hide Registry.IsActive;
  }

  /** Both validators are active, and nothing was submitted for the second round yet. */
  lemma BeforeSecond(b: Rounds, l: Ledger, s: RoundSettlement)
    requires FirstSettled(b, l, s)
    ensures var r := b.registry;
            && r.epoch == 0 && r.IsActive("one") && r.IsActive("two")
            && r.records["one"].publicKey == "key" && r.records["two"].publicKey == "key"
    ensures (1, 0, "one") !in b.commitments && (1, 0, "two") !in b.commitments && (1, 0, "one") !in b.openings
  {
    hide Coordinated, Ledger.BalanceOf;
  }

  function Advanced(b: Rounds): Rounds { b.(registry := b.registry.(epoch := 1)) }

  function Commits(b: Rounds, v: string): Rounds { b.(commitments := b.commitments[(1, 0, v) := CommitmentOf(v, 1, 0)]) }

  lemma OneSubmits(b: Rounds, l: Ledger, s: RoundSettlement)
    requires FirstSettled(b, l, s)
    ensures DoRound(b, ADVANCE) == Advanced(b) && DoRound(Advanced(b), COMMIT_ONE) == Commits(Advanced(b), "one")
  {
    BeforeSecond(b, l, s);
    Advances(b);
    hide FirstSettled, Registry.IsActive, CommitmentOf, RevealOf, DoRound;
    SameActive(b.registry, Advanced(b).registry);
    SubmitsCommitment(Advanced(b), "one");
  }

  lemma Advances(b: Rounds)
    requires b.registry.epoch == 0
    ensures DoRound(b, ADVANCE) == Advanced(b)
  {}

  lemma TwoSubmits(b: Rounds, l: Ledger, s: RoundSettlement)
    requires FirstSettled(b, l, s)
    ensures DoRound(Commits(Advanced(b), "one"), COMMIT_TWO) == Commits(Commits(Advanced(b), "one"), "two")
  {
    BeforeSecond(b, l, s);
    hide FirstSettled, Registry.IsActive, CommitmentOf, RevealOf, DoRound;
    SameActive(b.registry, Advanced(b).registry);
    SubmitsCommitment(Commits(Advanced(b), "one"), "two");
  }

  lemma OneReveals(b: Rounds, l: Ledger, s: RoundSettlement)
    requires FirstSettled(b, l, s)
    ensures DoRound(Commits(Commits(Advanced(b), "one"), "two"), OPEN_ONE) == SecondRound(b)
  {
    BeforeSecond(b, l, s);
    hide FirstSettled, Registry.IsActive, CommitmentOf, RevealOf, DoRound;
    SameActive(b.registry, Advanced(b).registry);
    SubmitsReveal(Commits(Commits(Advanced(b), "one"), "two"), "one");
  }

  lemma SecondSubmissions(b: Rounds, l: Ledger, s: RoundSettlement)
    requires FirstSettled(b, l, s)
    ensures var c := DoRound(DoRound(b, ADVANCE), COMMIT_ONE);
            DoRound(DoRound(c, COMMIT_TWO), OPEN_ONE) == SecondRound(b)
  {
    hide *;
    OneSubmits(b, l, s);
    TwoSubmits(b, l, s);
    OneReveals(b, l, s);
  }

  lemma SameActive(r: Registry, q: Registry)
    requires q.records == r.records
    ensures forall v :: q.IsActive(v) == r.IsActive(v)
    ensures forall v :: r.IsActive(v) ==> v in r.records
  {}

  lemma SecondSets(b: Rounds, l: Ledger, s: RoundSettlement)
    requires FirstSettled(b, l, s)
    ensures var c := SecondRound(b);
            c.Committed(0) == {"one", "two"} && c.Revealed(0) == {"one"} && c.Silent(0) == {"two"}
  {
    hide Coordinated, Ledger.BalanceOf;
    var c := SecondRound(b);
    assert (1, 0, "one") in c.commitments.Keys && (1, 0, "two") in c.commitments.Keys && (1, 0, "one") in c.openings.Keys;
    assert c.Committed(0) == {"one", "two"};
    assert c.Revealed(0) == {"one"};
  }

  lemma SecondStakes(b: Rounds, l: Ledger, s: RoundSettlement)
    requires FirstSettled(b, l, s)
    ensures var r := SecondRound(b).registry;
            ActiveStakes(r) == ActiveStakes(Staffed()) && r.bondOf.Keys == {"one", "two"}
            && r.IsActive("one") && r.IsActive("two") && r.records["one"].publicKey == "key"
  {
    hide Coordinated, Ledger.BalanceOf;
  }

  lemma SecondStanding(b: Rounds, l: Ledger, s: RoundSettlement)
    requires FirstSettled(b, l, s)
    ensures SecondRound(b).Standing(0)
  {
    SecondSets(b, l, s);
    SecondStakes(b, l, s);
    hide FirstSettled, Rounds.Committed, Rounds.Revealed, ActiveStakes, Registry.IsActive, Staffed, SecondRound;
  }

  lemma SecondWeight(b: Rounds, l: Ledger, s: RoundSettlement)
    requires FirstSettled(b, l, s)
    ensures var c := SecondRound(b); c.Standing(0) && c.WeightOf(c.Revealed(0)) == 5
  {
    SecondStanding(b, l, s);
    SecondSets(b, l, s);
    SecondStakes(b, l, s);
    StaffedWeights();
    hide FirstSettled, Rounds.Committed, Rounds.Revealed, SumOver, ActiveStakes, StakeThreshold, Registry.IsActive, Staffed,
         SecondRound, Rounds.Standing;
  }

  lemma OneOpens(b: Rounds, l: Ledger, s: RoundSettlement)
    requires FirstSettled(b, l, s)
    ensures var c := SecondRound(b);
            "one" in c.Revealed(0) && "one" in c.Committed(0) && c.registry.IsActive("one") && c.RevealOpens(0, "one")
  {
    SecondSets(b, l, s);
    SecondStakes(b, l, s);
    hide FirstSettled, Rounds.Committed, Rounds.Revealed, ActiveStakes, Registry.IsActive, Staffed;
  }

  lemma SecondThreshold(b: Rounds, l: Ledger, s: RoundSettlement)
    requires FirstSettled(b, l, s)
    ensures StakeThreshold(SecondRound(b).registry) == 5
  {
    StaffedWeights();
    SecondStakes(b, l, s);
    hide FirstSettled, SumOver, ActiveStakes, SecondRound, Staffed;
  }

  lemma SecondFields(b: Rounds, l: Ledger, s: RoundSettlement)
    requires FirstSettled(b, l, s)
    ensures var c := SecondRound(b);
            && c.registry.epoch == 1 && c.registry.ledger == l && c.settlements == map[(0, FAR) := s]
            && l.treasury == "treasury" && l.settledRewardEpochs == {FAR} && l.BalanceOf("treasury") >= 1
  {
    hide Coordinated, Ledger.BalanceOf;
  }

  lemma NotThatRound(s: RoundSettlement)
    ensures (1, 0) !in map[(0, FAR) := s]
  {}

  lemma SecondSettleable(b: Rounds, l: Ledger, s: RoundSettlement)
    requires FirstSettled(b, l, s)
    ensures var c := SecondRound(b);
            c.Settleable(0, 1, 1) && Collides(c, 0, 1) && (c.registry.epoch, 0) !in c.settlements
  {
    SecondSets(b, l, s);
    SecondWeight(b, l, s);
    OneOpens(b, l, s);
    SecondThreshold(b, l, s);
    SecondFields(b, l, s);
    NotThatRound(s);
    hide FirstSettled, SecondRound, Rounds.Committed, Rounds.Revealed, Rounds.Standing, StakeThreshold, Rounds.WeightOf,
         Rounds.RevealOpens, Ledger.BalanceOf;
  }

  lemma SecondCoordinated(b: Rounds, l: Ledger, s: RoundSettlement)
    requires FirstSettled(b, l, s)
    ensures Coordinated(SecondRound(b))
  {
    SecondSubmissions(b, l, s);
    hide Coordinated, DoRound, Ledger.BalanceOf;
    RoundStepExactly(b, ADVANCE);
    var c := DoRound(b, ADVANCE);
    RoundStepExactly(c, COMMIT_ONE);
    RoundStepExactly(DoRound(c, COMMIT_ONE), COMMIT_TWO);
    RoundStepExactly(DoRound(DoRound(c, COMMIT_ONE), COMMIT_TWO), OPEN_ONE);
  }

  // ----- The run

  const STAFFING: seq<RoundOp> := [Members(FUNDING)] + [Members(ADMISSION)] + [Members(TREASURE)] + [Members(SECOND)]
  const FIRST_ROUND: seq<RoundOp> :=
    STAFFING + [SubmitCommitment(CommitmentOf("one", 0, FAR))] + [SubmitReveal(RevealOf("one", 0, FAR))]
    + [RoundOp.Finalize(FAR, 1, 0)]
  const WHOLE_RUN: seq<RoundOp> := FIRST_ROUND + [ADVANCE] + [COMMIT_ONE] + [COMMIT_TWO] + [OPEN_ONE]

  lemma NextRound(b: Rounds, ops: seq<RoundOp>, op: RoundOp)
    requires RunRounds(b, ops).Some? && MayDoRound(RunRounds(b, ops).value, op)
    ensures RunRounds(b, ops + [op]) == Some(DoRound(RunRounds(b, ops).value, op))
  {
    assert (ops + [op])[..|ops|] == ops && (ops + [op])[|ops|] == op;
  }

  /**
   The run goes through; finalizing round 0 of epoch 1 after it then raises, because the reward epoch was settled by round
   1,000,000 of epoch 0, and "two" has been fined.
   */
  lemma SecondRoundFinesAndRaises()
    ensures RunRounds(Opened(), WHOLE_RUN).Some?
    ensures var b := RunRounds(Opened(), WHOLE_RUN).value;
            var o := b.Finalize(0, 1, 1);
            && Coordinated(b) && b.Settleable(0, 1, 1) && (b.registry.epoch, 0) !in b.settlements
            && o.result.Err? && o.rounds != b
  {
    var l, s := FirstSettles();
    var b := FirstRound().Finalize(FAR, 1, 0).rounds;
    RunReaches();
    SecondSubmissions(b, l, s);
    SecondSettleable(b, l, s);
    SecondCoordinated(b, l, s);
    SecondSets(b, l, s);
    hide *;
    FinalizeAllOrNothing(SecondRound(b), 0, 1, 1);
  }

  function Beginning(r: Registry): Rounds { Rounds(r, map[], map[], map[]) }

  lemma MembersNext(r: Registry, q: Registry, ops: seq<RoundOp>, op: MemberOp)
    requires RunRounds(Opened(), ops) == Some(Beginning(r)) && (op.Admit? || op.Fund?) && Do(r, op) == q
    ensures RunRounds(Opened(), ops + [Members(op)]) == Some(Beginning(q))
  {
    hide RunRounds, Opened, Do;
    NextRound(Opened(), ops, Members(op));
  }

  lemma StaffingReaches()
    ensures RunRounds(Opened(), STAFFING) == Some(Beginning(Staffed()))
  {
    FundOwner(1);
    AdmitOne(1);
    Enriches();
    Staffs();
    assert RunRounds(Opened(), []) == Some(Beginning(Fresh(1)));
    hide *;
    assert [] + [Members(FUNDING)] == [Members(FUNDING)];
    MembersNext(Fresh(1), OwnerFunded(1), [], FUNDING);
    MembersNext(OwnerFunded(1), Admitted(1), [Members(FUNDING)], ADMISSION);
    MembersNext(Admitted(1), Rich(), [Members(FUNDING)] + [Members(ADMISSION)], TREASURE);
    MembersNext(Rich(), Staffed(), [Members(FUNDING)] + [Members(ADMISSION)] + [Members(TREASURE)], SECOND);
  }

  lemma OtherNext(b: Rounds, ops: seq<RoundOp>, op: RoundOp)
    requires RunRounds(Opened(), ops) == Some(b)
    requires op.SubmitCommitment? || op.SubmitReveal? || op == Members(AdvanceEpoch)
             || (op.Finalize? && !Collides(b, op.round, op.reward))
    ensures RunRounds(Opened(), ops + [op]) == Some(DoRound(b, op))
  {
    hide RunRounds, Opened, DoRound, Collides;
    NextRound(Opened(), ops, op);
  }

  lemma FirstReaches()
    ensures RunRounds(Opened(), FIRST_ROUND) == Some(FirstRound().Finalize(FAR, 1, 0).rounds)
  {
    StaffingReaches();
    FirstSubmissions();
    FirstSettleable();
    var start := Beginning(Staffed());
    assert DoRound(FirstRound(), RoundOp.Finalize(FAR, 1, 0)) == FirstRound().Finalize(FAR, 1, 0).rounds;
    assert start == Rounds(Staffed(), map[], map[], map[]);
    hide *;
    var commit, open := SubmitCommitment(CommitmentOf("one", 0, FAR)), SubmitReveal(RevealOf("one", 0, FAR));
    OtherNext(start, STAFFING, commit);
    OtherNext(DoRound(start, commit), STAFFING + [commit], open);
    OtherNext(FirstRound(), STAFFING + [commit] + [open], RoundOp.Finalize(FAR, 1, 0));
  }

  lemma RunReaches()
    ensures var b := FirstRound().Finalize(FAR, 1, 0).rounds;
            var c := DoRound(DoRound(b, ADVANCE), COMMIT_ONE);
            RunRounds(Opened(), WHOLE_RUN) == Some(DoRound(DoRound(c, COMMIT_TWO), OPEN_ONE))
  {
    FirstReaches();
    hide RunRounds, Opened, DoRound, FirstRound, Rounds.Finalize, CommitmentOf, RevealOf;
    var b := FirstRound().Finalize(FAR, 1, 0).rounds;
    var one, two, three, four := ADVANCE, COMMIT_ONE, COMMIT_TWO, OPEN_ONE;
    OtherNext(b, FIRST_ROUND, one);
    OtherNext(DoRound(b, one), FIRST_ROUND + [one], two);
    OtherNext(DoRound(DoRound(b, one), two), FIRST_ROUND + [one] + [two], three);
    OtherNext(DoRound(DoRound(DoRound(b, one), two), three), FIRST_ROUND + [one] + [two] + [three], four);
  }
}
