/**
 Commit-reveal rounds and their settlement (mosaic/beacon.py, mosaic/randomness.py): penalties are taken one
 validator at a time from ledger and membership, rewards are paid after them, and any step could raise.
 */
module Beacon {
  import opened Results
  import opened Names
  import opened Sums
  import opened Settlement
  import opened Membership

  const REWARD_EPOCH_STRIDE := 1_000_000

  /** A beacon hashes the eight bytes of its round. */
  const ROUND_LIMIT := 0x1_0000_0000_0000_0000

  /** What a commitment holds: the hash of a secret, or any other string. */
  datatype Hash = HashOf(secret: string) | OtherText(text: string, isHex: bool)

  datatype CommitmentStatement = CommitmentStatement(validatorId: string, epoch: int, round: int, commitment: Hash)

  datatype RevealStatement = RevealStatement(validatorId: string, epoch: int, round: int, secret: string, commitment: Hash)

  datatype RoundSignature = OnCommitment(key: string, c: CommitmentStatement) | OnReveal(key: string, s: RevealStatement)
                          | OtherSignature

  datatype Commitment = Commitment(statement: CommitmentStatement, signature: RoundSignature)

  datatype Reveal = Reveal(statement: RevealStatement, signature: RoundSignature)

  datatype Mode = ByReveal | ByCommitment

  datatype RoundSettlement = RoundSettlement(
    epoch: int, round: int, mode: Mode, committed: set<string>, revealed: set<string>,
    rewardEvents: seq<SettlementEvent>, penaltyEvents: seq<SettlementEvent>)

  datatype BeaconError = BeaconRoundError

  /** The registry after some penalties, and whether all of them went through. */
  datatype Penalized = Penalized(registry: Registry, events: seq<SettlementEvent>, ok: bool)

  datatype Rounded<T> = Rounded(rounds: Rounds, result: Result<T, BeaconError>)

  predicate SignedCommitment(c: Commitment, key: string) { c.signature == OnCommitment(key, c.statement) }

  predicate SignedReveal(r: Reveal, key: string) { r.signature == OnReveal(key, r.statement) }

  function ActiveStakes(r: Registry): map<string, int> { map v | v in r.records && r.IsActive(v) :: r.records[v].stake }

  ghost function StakeThreshold(r: Registry): int { 2 * Sum(ActiveStakes(r)) / 3 + 1 }

  /** Slashes and penalizes in turn; stops where either raises. */
  function PenalizeAll(r: Registry, vs: seq<string>, round: int, penalty: int): Penalized
    decreases |vs|
  {
    if vs == [] then Penalized(r, [], true)
    else if vs[0] !in r.bondOf then Penalized(r, [], false)
    else
      var slashed := r.ledger.Slash(r.bondOf[vs[0]], penalty, r.epoch, NonReveal(r.epoch, round, vs[0]), None);
      var docked := r.(ledger := slashed.ledger);
      if slashed.result.Err? then Penalized(docked, [], false)
      else
        var moved := docked.PenalizeNonReveal(vs[0], r.epoch, round, penalty);
        if !moved.ok then Penalized(moved.registry, [], false)
        else
          var rest := PenalizeAll(moved.registry, vs[1..], round, penalty);
          Penalized(rest.registry, slashed.result.value + rest.events, rest.ok)
  }

  function BondsOf(r: Registry, vs: set<string>): set<string>
    requires vs <= r.bondOf.Keys
  {
    set v | v in vs :: r.bondOf[v]
  }

  function EqualWeights(bonds: set<string>): map<string, int> { map b | b in bonds :: 1 }

  datatype Rounds = Rounds(
    registry: Registry,
    commitments: map<(int, int, string), Commitment>,
    openings: map<(int, int, string), Reveal>,
    settlements: map<(int, int), RoundSettlement>)
  {
    function SubmitCommitment(c: Commitment): Rounded<()> {
      var s := c.statement;
      var key := (s.epoch, s.round, s.validatorId);
      if !registry.IsActive(s.validatorId) || s.epoch != registry.epoch || s.round < 0
         || s.commitment == OtherText("", false) || s.commitment == OtherText("", true)
         || !SignedCommitment(c, registry.records[s.validatorId].publicKey)
         || (key in commitments && commitments[key] != c)
      then Rounded(this, Err(BeaconRoundError))
      else Rounded(this.(commitments := commitments[key := c]), Ok(()))
    }

    function SubmitReveal(r: Reveal): Rounded<()> {
      var s := r.statement;
      var key := (s.epoch, s.round, s.validatorId);
      if !registry.IsActive(s.validatorId)
         || key !in commitments || commitments[key].statement.commitment != s.commitment
         || !SignedReveal(r, registry.records[s.validatorId].publicKey)
         || commitments[key].statement.commitment != HashOf(s.secret)
         || (key in openings && openings[key] != r)
      then Rounded(this, Err(BeaconRoundError))
      else Rounded(this.(openings := openings[key := r]), Ok(()))
    }

    function Committed(round: int): set<string> {
      set k | k in commitments.Keys && k.0 == registry.epoch && k.1 == round :: k.2
    }

    function Revealed(round: int): set<string> {
      set k | k in openings.Keys && k.0 == registry.epoch && k.1 == round :: k.2
    }

    /** The validators that settle_round takes, and their standing. */
    predicate Standing(round: int) {
      && Committed(round) != {} && Revealed(round) <= Committed(round) && Committed(round) <= registry.bondOf.Keys
      && forall v :: v in Committed(round) ==> registry.IsActive(v)
    }

    ghost function WeightOf(vs: set<string>): int
      requires forall v :: v in vs ==> registry.IsActive(v)
    {
      assert vs <= ActiveStakes(registry).Keys by {
        forall v | v in vs ensures v in ActiveStakes(registry) { assert registry.IsActive(v); }
      }
      SumOver(ActiveStakes(registry), vs)
    }

    predicate RevealOpens(round: int, v: string)
      requires v in Revealed(round) && v in Committed(round) && registry.IsActive(v)
    {
      var c, r := commitments[(registry.epoch, round, v)], openings[(registry.epoch, round, v)];
      && c.statement.epoch == registry.epoch == r.statement.epoch && c.statement.round == round == r.statement.round
      && SignedCommitment(c, registry.records[v].publicKey) && SignedReveal(r, registry.records[v].publicKey)
      && c.statement.commitment == HashOf(r.statement.secret) == r.statement.commitment
    }

    predicate CommitmentStands(round: int, v: string)
      requires v in Committed(round) && registry.IsActive(v)
    {
      var c := commitments[(registry.epoch, round, v)];
      && c.statement.epoch == registry.epoch && c.statement.round == round
      && SignedCommitment(c, registry.records[v].publicKey)
      && (c.statement.commitment.OtherText? ==> c.statement.commitment.isHex)
    }

    /** Which beacon the round makes, if its checks pass and eight bytes hold the round. */
    ghost function BeaconOf(round: int): Option<Mode>
      requires Standing(round)
    {
      if WeightOf(Revealed(round)) >= StakeThreshold(registry) then
        if Revealed(round) != {} && 0 <= round < ROUND_LIMIT && forall v :: v in Revealed(round) ==> RevealOpens(round, v)
        then Some(ByReveal)
        else None
      else if WeightOf(Committed(round)) >= StakeThreshold(registry) && 0 <= round < ROUND_LIMIT
              && forall v :: v in Committed(round) ==> CommitmentStands(round, v)
      then Some(ByCommitment)
      else None
    }

    /** The checks finalize and settle_round make before anything changes. */
    ghost predicate Settleable(round: int, reward: int, penalty: int) {
      && Standing(round) && reward >= 0 && penalty >= 0
      && (reward != 0 ==> registry.ledger.BalanceOf(registry.ledger.treasury) >= reward * |Revealed(round)|)
      && BeaconOf(round).Some?
    }

    function Silent(round: int): set<string> { Committed(round) - Revealed(round) }

    function Penalties(round: int, penalty: int): Penalized {
      if penalty <= 0 then Penalized(registry, [], true)
      else PenalizeAll(registry, SortedNames(Silent(round)), round, penalty)
    }

    /** The reward distribution of the round, on the ledger the penalties left. */
    ghost function Rewards(r: Registry, round: int, reward: int): Settled<seq<SettlementEvent>>
      requires Revealed(round) <= r.bondOf.Keys
    {
      if reward == 0 || Revealed(round) == {} then Settled(r.ledger, Ok([]))
      else r.ledger.DistributeRewards(r.epoch * REWARD_EPOCH_STRIDE + round, reward * |Revealed(round)|,
                                      EqualWeights(BondsOf(r, Revealed(round))))
    }

    ghost function Finalize(round: int, reward: int, penalty: int): Rounded<RoundSettlement> {
      var key := (registry.epoch, round);
      if key in settlements then Rounded(this, Ok(settlements[key]))
      else if !Settleable(round, reward, penalty) then Rounded(this, Err(BeaconRoundError))
      else
        var p := Penalties(round, penalty);
        if !p.ok || !(Revealed(round) <= p.registry.bondOf.Keys) then Rounded(this.(registry := p.registry), Err(BeaconRoundError))
        else
          var paid := Rewards(p.registry, round, reward);
          var after := p.registry.(ledger := paid.ledger);
          if paid.result.Err? then Rounded(this.(registry := after), Err(BeaconRoundError))
          else
            var settlement := RoundSettlement(registry.epoch, round, BeaconOf(round).value, Committed(round),
                                              Revealed(round), paid.result.value, p.events);
            Rounded(this.(registry := after, settlements := settlements[key := settlement]), Ok(settlement))
    }
  }
}
