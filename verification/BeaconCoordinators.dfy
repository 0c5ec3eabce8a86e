/**
 The round coordinator object (mosaic/beacon.py) and the settling loop it runs (mosaic/randomness.py).
 */
module BeaconCoordinators {
  import opened Results
  import opened Names
  import opened Sums
  import opened Settlement
  import opened SettlementLedgers
  import opened Membership
  import opened MembershipManagers
  import opened Beacon

  class BeaconRoundCoordinator {
    const membership: MembershipManager
    var commitments: map<(int, int, string), Commitment>
    var openings: map<(int, int, string), Reveal>
    var settlements: map<(int, int), RoundSettlement>

    function State(): Rounds
      reads this, membership, membership.settlement
    {
      Rounds(membership.State(), commitments, openings, settlements)
    }

    constructor (membership: MembershipManager)
      ensures this.membership == membership
      ensures State() == Rounds(membership.State(), map[], map[], map[])
    {
      this.membership := membership;
      commitments, openings, settlements := map[], map[], map[];
    }

    method SubmitCommitment(c: Commitment) returns (r: Result<(), BeaconError>)
      modifies this`commitments
      ensures Rounded(State(), r) == old(State()).SubmitCommitment(c)
    {
      var s := c.statement;
      if !membership.State().IsActive(s.validatorId) { return Err(BeaconRoundError); }
      if s.epoch != membership.epoch { return Err(BeaconRoundError); }
      if s.round < 0 || s.commitment == OtherText("", false) || s.commitment == OtherText("", true) {
        return Err(BeaconRoundError);
      }
      if !SignedCommitment(c, membership.records[s.validatorId].publicKey) { return Err(BeaconRoundError); }
      var key := (s.epoch, s.round, s.validatorId);
      if key in commitments && commitments[key] != c { return Err(BeaconRoundError); }
      commitments := commitments[key := c];
      return Ok(());
    }

    method SubmitReveal(opening: Reveal) returns (r: Result<(), BeaconError>)
      modifies this`openings
      ensures Rounded(State(), r) == old(State()).SubmitReveal(opening)
    {
      var s := opening.statement;
      if !membership.State().IsActive(s.validatorId) { return Err(BeaconRoundError); }
      var key := (s.epoch, s.round, s.validatorId);
      if key !in commitments || commitments[key].statement.commitment != s.commitment { return Err(BeaconRoundError); }
      if !SignedReveal(opening, membership.records[s.validatorId].publicKey) { return Err(BeaconRoundError); }
      if commitments[key].statement.commitment != HashOf(s.secret) { return Err(BeaconRoundError); }
      if key in openings && openings[key] != opening { return Err(BeaconRoundError); }
      openings := openings[key := opening];
      return Ok(());
    }

    method MakeBeacon(round: int) returns (mode: Option<Mode>)
      requires State().Standing(round)
      ensures mode == State().BeaconOf(round)
    {
      var b := State();
      var threshold := StakeThresholdOf(b.registry);
      var revealed := StakeOf(b, b.Revealed(round));
      if revealed >= threshold {
        var opens := b.Revealed(round) != {} && forall v :: v in b.Revealed(round) ==> b.RevealOpens(round, v);
        return if opens && 0 <= round < ROUND_LIMIT then Some(ByReveal) else None;
      }
      var committed := StakeOf(b, b.Committed(round));
      var stands := forall v :: v in b.Committed(round) ==> b.CommitmentStands(round, v);
      return if committed >= threshold && stands && 0 <= round < ROUND_LIMIT then Some(ByCommitment) else None;
    }

    /** Takes the penalty from each in turn: ledger first, membership second. */
    method Penalize(vs: seq<string>, round: int, penalty: int) returns (ok: bool, events: seq<SettlementEvent>)
      modifies membership, membership.settlement
      ensures var p := PenalizeAll(old(membership.State()), vs, round, penalty);
              membership.State() == p.registry && ok == p.ok && (ok ==> events == p.events)
    {
      hide Ledger.Slash, Registry.PenalizeNonReveal;
      events, ok := [], true;
      ghost var all := PenalizeAll(membership.State(), vs, round, penalty);
      assert vs[0..] == vs;
      for i := 0 to |vs|
        invariant Follows(all, PenalizeAll(membership.State(), vs[i..], round, penalty), events)
      {
        var v := vs[i];
        assert vs[i..][0] == v && vs[i..][1..] == vs[i + 1..];
        if v !in membership.validatorBonds { return false, []; }
        var slashed := membership.settlement.Slash(membership.validatorBonds[v], penalty, membership.epoch,
                                                   NonReveal(membership.epoch, round, v), None);
        if slashed.Err? { return false, []; }
        var moved := membership.PenalizeNonReveal(v, membership.epoch, round, penalty);
        if !moved { return false, []; }
        events := events + slashed.value;
      }
      assert vs[|vs|..] == [] && events + [] == events;
    }

    method Finalize(round: int, reward: int, penalty: int) returns (r: Result<RoundSettlement, BeaconError>)
      modifies this`settlements, membership, membership.settlement
      ensures Rounded(State(), r) == old(State()).Finalize(round, reward, penalty)
    {
      hide PenalizeAll, Rounds.BeaconOf, Rounds.Standing, Ledger.DistributeRewards;
      var key := (membership.epoch, round);
      if key in settlements { return Ok(settlements[key]); }
      var b := State();
      if !b.Standing(round) || reward < 0 || penalty < 0 { return Err(BeaconRoundError); }
      var committed, revealed := b.Committed(round), b.Revealed(round);
      if reward != 0 && b.registry.ledger.BalanceOf(b.registry.ledger.treasury) < reward * |revealed| {
        return Err(BeaconRoundError);
      }
      var mode := MakeBeacon(round);
      if mode.None? { return Err(BeaconRoundError); }
      var ok, fines := true, [];
      if penalty > 0 {
        ok, fines := Penalize(SortedNames(committed - revealed), round, penalty);
        if !ok { return Err(BeaconRoundError); }
      }
      if !(revealed <= membership.validatorBonds.Keys) { return Err(BeaconRoundError); }
      var rewards: Result<seq<SettlementEvent>, SettlementError> := Ok([]);
      if reward != 0 && revealed != {} {
        rewards := membership.settlement.DistributeRewards(membership.epoch * REWARD_EPOCH_STRIDE + round, reward * |revealed|,
                                                           EqualWeights(BondsOf(membership.State(), revealed)));
        if rewards.Err? { return Err(BeaconRoundError); }
      }
      var settlement := RoundSettlement(b.registry.epoch, round, mode.value, committed, revealed, rewards.value, fines);
      settlements := settlements[key := settlement];
      return Ok(settlement);
    }
  }

  predicate Follows(all: Penalized, rest: Penalized, events: seq<SettlementEvent>) {
    all.registry == rest.registry && all.ok == rest.ok && (all.ok ==> all.events == events + rest.events)
  }

  method StakeOf(b: Rounds, vs: set<string>) returns (weight: int)
    requires forall v :: v in vs ==> b.registry.IsActive(v)
    ensures weight == b.WeightOf(vs)
  {
    weight := SumTable(ActiveStakes(b.registry), vs);
  }

  method StakeThresholdOf(r: Registry) returns (threshold: int)
    ensures threshold == StakeThreshold(r)
  {
    var total := SumTable(ActiveStakes(r), ActiveStakes(r).Keys);
    threshold := 2 * total / 3 + 1;
  }
}
