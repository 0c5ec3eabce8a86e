/**
 Who is admitted: a validator that signed for a stake of at least the minimum, put up in full by a bond of the same key,
 and on a deposit that never admitted anybody before or after.
 */
module Admissions {
  import opened Results
  import opened Settlement
  import opened Books
  import opened Membership
  import opened MembershipRuns

  /** The identifier the bond must have: the one the request names, or else its deposit's. */
  function WantedBond(s: AdmissionStatement): string {
    if s.bondId.Some? && s.bondId.value != "" then s.bondId.value else s.depositId
  }

  /** Both are signed with the validator's key, and say the same of it. */
  predicate BondMatches(request: AdmissionRequest, bond: StakeBond) {
    && request.signature == SignedAdmission(request.statement.publicKey, request.statement)
    && bond.signature == SignedBond(request.statement.publicKey, bond.statement)
    && bond.statement.ownerPublicKey == request.statement.publicKey
    && bond.statement.amount == request.statement.stake && bond.statement.bondId == WantedBond(request.statement)
  }

  /** An admission returns exactly for a new validator and a new deposit with a matching, funded and current bond. */
  lemma AdmissionExactly(r: Registry, request: AdmissionRequest, bond: Option<StakeBond>)
    requires Orderly(r)
    ensures var m, s := r.Admit(request, bond), request.statement;
            m.ok <==>
            && bond.Some? && BondMatches(request, bond.value)
            && s.stake >= r.minimumStake && s.stake > 0 && s.requestedEpoch >= r.epoch
            && s.validatorId !in r.records && s.depositId !in r.deposits
            && var b := bond.value.statement;
            && b.bondId !in r.ledger.bonds && b.asset == r.ledger.asset && 0 <= b.activationEpoch <= r.epoch
            && b.unlockEpoch >= b.activationEpoch && r.ledger.BalanceOf(b.owner) >= s.stake
            && SettlementEvent(BondStake, r.epoch, b.owner, s.stake, r.ledger.asset, Name(b.bondId)) !in r.ledger.events
  {
    AdmitExactly(r, request, bond);
    hide Orderly, Registry.Admit;
  }

  /** The validator's record is its request: active at once, not jailed, not locked, with its own bond and deposit. */
  lemma AdmittedAs(r: Registry, request: AdmissionRequest, bond: Option<StakeBond>)
    requires r.Admit(request, bond).ok
    ensures var q, s := r.Admit(request, bond).registry, request.statement;
            && q.records == r.records[s.validatorId := ValidatorRecord(s.publicKey, s.stake, s.depositId, true, 0, false)]
            && q.bondOf == r.bondOf[s.validatorId := WantedBond(s)]
            && q.deposits == r.deposits + {s.depositId}
  {
    hide Ledger.Bond;
  }

  lemma StepKeepsDeposits(r: Registry, op: MemberOp)
    ensures r.deposits <= Do(r, op).deposits
  {
    hide Registry.AdmissionRefused, Ledger.Bond, Ledger.RequestUnbond, Ledger.Withdraw, Ledger.Slash, Ledger.Fund,
         Ledger.ChargeFee;
  }

  lemma {:induction false} RunKeepsDeposits(r: Registry, ops: seq<MemberOp>)
    ensures r.deposits <= Play(r, ops).deposits
  {
    hide Do;
    if ops != [] {
      RunKeepsDeposits(r, ops[..|ops| - 1]);
      StepKeepsDeposits(Play(r, ops[..|ops| - 1]), ops[|ops| - 1]);
    }
  }

  /** A deposit that admitted a validator admits none ever again, whatever became of that one. */
  lemma DepositUsedOnce(r: Registry, request: AdmissionRequest, bond: Option<StakeBond>, ops: seq<MemberOp>,
                        later: AdmissionRequest, other: Option<StakeBond>)
    requires r.Admit(request, bond).ok && later.statement.depositId == request.statement.depositId
    ensures !Play(r.Admit(request, bond).registry, ops).Admit(later, other).ok
  {
    AdmittedAs(r, request, bond);
    RunKeepsDeposits(r.Admit(request, bond).registry, ops);
    hide Ledger.Bond, Play;
  }
}
