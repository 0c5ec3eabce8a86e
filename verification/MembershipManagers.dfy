/**
 The membership object (mosaic/membership.py), bound to its settlement ledger.
 */
module MembershipManagers {
  import opened Results
  import opened Settlement
  import opened SettlementLedgers
  import opened Membership

  class MembershipManager {
    const settlement: SettlementLedger
    const minimumStake: int
    const withdrawalDelay: int
    var epoch: int
    var records: map<string, ValidatorRecord>
    var deposits: set<string>
    var validatorBonds: map<string, string>
    var slashHistory: set<Id>
    var nonRevealHistory: set<Id>

    function State(): Registry
      reads this, settlement
    {
      Registry(settlement.State(), minimumStake, withdrawalDelay, epoch, records, deposits, validatorBonds,
               slashHistory, nonRevealHistory)
    }

    constructor (settlement: SettlementLedger, minimumStake: int, withdrawalDelay: int)
      ensures this.settlement == settlement
      ensures State() == Registry(settlement.State(), minimumStake, withdrawalDelay, 0, map[], {}, map[], {}, {})
    {
      this.settlement, this.minimumStake, this.withdrawalDelay := settlement, minimumStake, withdrawalDelay;
      epoch, records, deposits, validatorBonds, slashHistory, nonRevealHistory := 0, map[], {}, map[], {}, {};
    }

    method Admit(request: AdmissionRequest, bond: Option<StakeBond>) returns (ok: bool)
      modifies this, settlement
      ensures Moved(State(), ok) == old(State()).Admit(request, bond)
    {
      hide Ledger.Bond;
      if State().AdmissionRefused(request, bond) { return false; }
      var bonded := settlement.Bond(bond.value, epoch);
      if bonded.Err? { return false; }
      var s := request.statement;
      validatorBonds := validatorBonds[s.validatorId := bond.value.statement.bondId];
      records := records[s.validatorId := ValidatorRecord(s.publicKey, s.stake, s.depositId, true, 0, false)];
      deposits := deposits + {s.depositId};
      return true;
    }

    method Exit(v: string, atEpoch: Option<int>) returns (ok: bool)
      modifies this, settlement
      ensures Moved(State(), ok) == old(State()).Exit(v, atEpoch)
    {
      hide Ledger.RequestUnbond;
      if v !in records { return false; }
      if atEpoch.Some? && atEpoch.value < epoch { return false; }
      if v !in validatorBonds { return false; }
      var record := records[v];
      var unbond := settlement.RequestUnbond(validatorBonds[v], epoch, withdrawalDelay);
      if unbond.Err? { return false; }
      records := records[v := ValidatorRecord(record.publicKey, record.stake, record.depositId, false,
                                              epoch + withdrawalDelay, record.jailed)];
      return true;
    }

    method Withdraw(v: string, atEpoch: Option<int>) returns (ok: bool)
      modifies this, settlement
      ensures Moved(State(), ok) == old(State()).Withdraw(v, atEpoch)
    {
      hide Ledger.Withdraw;
      if v !in records { return false; }
      var record := records[v];
      var now := if atEpoch.Some? then atEpoch.value else epoch;
      if v !in validatorBonds { return false; }
      var paid := settlement.Withdraw(validatorBonds[v], now);
      if paid.Err? { return false; }
      if record.active { return false; }
      if now < record.lockedUntilEpoch { return false; }
      records := records - {v};
      validatorBonds := validatorBonds - {v};
      return true;
    }

    method Slash(evidence: SlashEvidence, penalty: Option<int>) returns (ok: bool)
      modifies this, settlement
      ensures Moved(State(), ok) == old(State()).Slash(evidence, penalty)
    {
      hide Ledger.Slash;
      var v := evidence.offenderId;
      if !evidence.Verify() || evidence.evidenceId in slashHistory { return false; }
      if v !in records || v !in validatorBonds { return false; }
      var record := records[v];
      var amount := if penalty.Some? then penalty.value else record.stake;
      var slashed := settlement.Slash(validatorBonds[v], amount, evidence.epoch, evidence.evidenceId, None);
      if slashed.Err? { return false; }
      if evidence.epoch > epoch { return false; }
      if amount <= 0 { return false; }
      var stake := Max(0, record.stake - amount);
      records := records[v := ValidatorRecord(record.publicKey, stake, record.depositId, stake > 0 && !record.jailed,
                                              record.lockedUntilEpoch, stake == 0 || record.jailed)];
      slashHistory := slashHistory + {evidence.evidenceId};
      return true;
    }

    method PenalizeNonReveal(v: string, atEpoch: int, round: int, penalty: int) returns (ok: bool)
      modifies this
      ensures Moved(State(), ok) == old(State()).PenalizeNonReveal(v, atEpoch, round, penalty)
    {
      if atEpoch != epoch || penalty <= 0 || v !in records { return false; }
      var record := records[v];
      var evidenceId := NonReveal(atEpoch, round, v);
      if evidenceId in nonRevealHistory { return false; }
      var stake := Max(0, record.stake - penalty);
      records := records[v := ValidatorRecord(record.publicKey, stake, record.depositId, stake > 0 && record.active,
                                              record.lockedUntilEpoch, stake == 0 || record.jailed)];
      nonRevealHistory := nonRevealHistory + {evidenceId};
      return true;
    }

    method AdvanceEpoch()
      modifies this`epoch
      ensures State() == old(State()).AdvanceEpoch()
    {
      epoch := epoch + 1;
    }
  }
}
