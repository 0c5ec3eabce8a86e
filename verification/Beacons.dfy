/**
 Which beacon a round makes, and what the record of a settled round says.
 */
module Beacons {
  import opened Results
  import opened Names
  import opened Sums
  import opened Settlement
  import opened Membership
  import opened Beacon

  /** More than two thirds of the active stake. */
  ghost predicate Heavy(b: Rounds, vs: set<string>)
    requires forall v :: v in vs ==> b.registry.IsActive(v)
  {
    3 * b.WeightOf(vs) > 2 * Sum(ActiveStakes(b.registry))
  }

  /** Signed by the validator's present key, for this round of this epoch. */
  predicate CommittedBy(b: Rounds, round: int, v: string) {
    && (b.registry.epoch, round, v) in b.commitments && v in b.registry.records
    && var c := b.commitments[(b.registry.epoch, round, v)];
    && c.signature == OnCommitment(b.registry.records[v].publicKey, c.statement)
    && c.statement.epoch == b.registry.epoch && c.statement.round == round
  }

  predicate RevealedBy(b: Rounds, round: int, v: string) {
    && (b.registry.epoch, round, v) in b.openings && v in b.registry.records && CommittedBy(b, round, v)
    && var c, r := b.commitments[(b.registry.epoch, round, v)], b.openings[(b.registry.epoch, round, v)];
    && r.signature == OnReveal(b.registry.records[v].publicKey, r.statement)
    && r.statement.epoch == b.registry.epoch && r.statement.round == round
    && r.statement.commitment == HashOf(r.statement.secret) && c.statement.commitment == HashOf(r.statement.secret)
  }

  lemma ThresholdIsHeavy(b: Rounds, vs: set<string>)
    requires forall v :: v in vs ==> b.registry.IsActive(v)
    requires Sum(ActiveStakes(b.registry)) >= 0
    ensures b.WeightOf(vs) >= StakeThreshold(b.registry) <==> Heavy(b, vs)
  {
    hide Sum, SumOver, ActiveStakes, Rounds.WeightOf;
  }

  lemma SetsOfRound(b: Rounds, round: int)
    ensures forall v :: v in b.Committed(round) <==> (b.registry.epoch, round, v) in b.commitments
    ensures forall v :: v in b.Revealed(round) <==> (b.registry.epoch, round, v) in b.openings
  {
    forall v ensures v in b.Committed(round) <==> (b.registry.epoch, round, v) in b.commitments {
      if (b.registry.epoch, round, v) in b.commitments { assert (b.registry.epoch, round, v) in b.commitments.Keys; }
    }
    forall v ensures v in b.Revealed(round) <==> (b.registry.epoch, round, v) in b.openings {
      if (b.registry.epoch, round, v) in b.openings { assert (b.registry.epoch, round, v) in b.openings.Keys; }
    }
  }

  /**
   The reveals make the beacon when they weigh more than two thirds of the active stake and all of them open; otherwise
   the commitments do, when those weigh as much and all of them stand.
   */
  lemma BeaconExactly(b: Rounds, round: int)
    requires b.Standing(round) && Sum(ActiveStakes(b.registry)) >= 0
    ensures b.BeaconOf(round) == Some(ByReveal) <==>
            && Heavy(b, b.Revealed(round)) && 0 <= round < ROUND_LIMIT
            && forall v :: v in b.Revealed(round) ==> RevealedBy(b, round, v)
    ensures b.BeaconOf(round) == Some(ByCommitment) <==>
            && !Heavy(b, b.Revealed(round)) && Heavy(b, b.Committed(round)) && 0 <= round < ROUND_LIMIT
            && forall v :: v in b.Committed(round) ==>
                 CommittedBy(b, round, v)
                 && (b.commitments[(b.registry.epoch, round, v)].statement.commitment.OtherText? ==>
                       b.commitments[(b.registry.epoch, round, v)].statement.commitment.isHex)
  {
    SetsOfRound(b, round);
    StandingMeans(b, round);
    ThresholdIsHeavy(b, b.Revealed(round));
    ThresholdIsHeavy(b, b.Committed(round));
    NobodyIsLight(b);
    forall v | v in b.Revealed(round) ensures RevealedBy(b, round, v) <==> b.RevealOpens(round, v) {}
    forall v | v in b.Committed(round)
      ensures b.CommitmentStands(round, v) <==>
                CommittedBy(b, round, v)
                && (b.commitments[(b.registry.epoch, round, v)].statement.commitment.OtherText? ==>
                      b.commitments[(b.registry.epoch, round, v)].statement.commitment.isHex)
    {}
    hide RevealedBy, CommittedBy, Rounds.RevealOpens, Rounds.CommitmentStands, Heavy, Rounds.WeightOf, StakeThreshold,
         Rounds.Committed, Rounds.Revealed, Sum, Rounds.Standing;
  }

  lemma StandingMeans(b: Rounds, round: int)
    requires b.Standing(round)
    ensures b.Revealed(round) <= b.Committed(round)
    ensures forall v :: v in b.Committed(round) ==> b.registry.IsActive(v)
  {
    hide Rounds.Committed, Rounds.Revealed;
  }

  lemma NobodyIsLight(b: Rounds)
    requires Sum(ActiveStakes(b.registry)) >= 0
    ensures !Heavy(b, {})
  {}

  // ----- What is recorded

  ghost predicate AllOf(events: seq<SettlementEvent>, kind: Kind) { forall e :: e in events ==> e.kind == kind }

  lemma {:induction false} PenaltyEvents(r: Registry, vs: seq<string>, round: int, penalty: int)
    ensures AllOf(PenalizeAll(r, vs, round, penalty).events, Kind.Slash)
    decreases |vs|
  {
    if vs != [] && vs[0] in r.bondOf {
      var slashed := r.ledger.Slash(r.bondOf[vs[0]], penalty, r.epoch, NonReveal(r.epoch, round, vs[0]), None);
      SlashEvents(r.ledger, r.bondOf[vs[0]], penalty, r.epoch, NonReveal(r.epoch, round, vs[0]));
      hide Ledger.Slash, Registry.PenalizeNonReveal;
      if slashed.result.Ok? {
        var moved := r.(ledger := slashed.ledger).PenalizeNonReveal(vs[0], r.epoch, round, penalty);
        PenaltyEvents(moved.registry, vs[1..], round, penalty);
      }
    }
  }

  lemma SlashEvents(l: Ledger, bondId: string, amount: int, epoch: int, id: Id)
    ensures var o := l.Slash(bondId, amount, epoch, id, None); o.result.Ok? ==> AllOf(o.result.value, Kind.Slash)
  {}

  lemma {:induction false} RewardEvents(l: Ledger, epoch: int, total: int, weights: map<string, int>, sum: int,
                                        rest: seq<string>, distributed: int)
    requires sum > 0 && forall i :: 0 <= i < |rest| ==> rest[i] in weights
    ensures var o := l.PayRewards(epoch, total, weights, sum, rest, distributed);
            o.result.Ok? ==> |o.result.value| == |rest| && AllOf(o.result.value, Reward)
    decreases |rest|
  {
    if rest != [] {
      var amount := l.Share(total, weights, sum, rest, distributed);
      hide Ledger.Share;
      var one := l.PayOne(epoch, rest[0], amount);
      if one.result.Ok? { RewardEvents(one.ledger, epoch, total, weights, sum, rest[1..], distributed + amount); }
    }
  }

  lemma DistributionEvents(l: Ledger, epoch: int, total: int, weights: map<string, int>)
    ensures var o := l.DistributeRewards(epoch, total, weights); o.result.Ok? ==> AllOf(o.result.value, Reward)
  {
    if !l.RewardsRefused(epoch, total, weights) && l.Debit(l.treasury, total).result.Ok? {
      PositiveSum(weights);
      RewardEvents(l.Debit(l.treasury, total).ledger, epoch, total, weights, Sum(weights), SortedNames(weights.Keys), 0);
    }
    hide Ledger.PayRewards, Sum, SortedNames;
  }

  /** The record of a round newly settled names the round, who committed and who revealed, and its fines and rewards. */
  lemma RecordsRound(b: Rounds, round: int, reward: int, penalty: int)
    requires (b.registry.epoch, round) !in b.settlements && b.Finalize(round, reward, penalty).result.Ok?
    ensures var s := b.Finalize(round, reward, penalty).result.value;
            && s.epoch == b.registry.epoch && s.round == round
            && s.committed == b.Committed(round) && s.revealed == b.Revealed(round)
            && b.Standing(round) && b.BeaconOf(round) == Some(s.mode)
            && AllOf(s.penaltyEvents, Kind.Slash) && AllOf(s.rewardEvents, Reward)
            && (penalty <= 0 ==> s.penaltyEvents == []) && (reward == 0 ==> s.rewardEvents == [])
  {
    hide Rounds.BeaconOf, Rounds.Standing, Rounds.Committed, Rounds.Revealed, SortedNames, PenalizeAll,
         Ledger.DistributeRewards;
    PenaltyEvents(b.registry, SortedNames(b.Silent(round)), round, penalty);
    var r := b.Penalties(round, penalty).registry;
    if reward != 0 && b.Revealed(round) != {} && b.Revealed(round) <= r.bondOf.Keys {
      DistributionEvents(r.ledger, r.epoch * REWARD_EPOCH_STRIDE + round, reward * |b.Revealed(round)|,
                         EqualWeights(BondsOf(r, b.Revealed(round))));
    }
  }
}
