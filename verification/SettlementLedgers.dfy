/**
 The ledger object (mosaic/economics.py), and conservation of value over all its runs.
 */
module SettlementLedgers {
  import opened Results
  import opened Names
  import opened Sums
  import opened Settlement
  import opened Books
  import opened Rewards

  class SettlementLedger {
    const asset: string
    const treasury: string
    const reporterRewardBps: int
    var balances: map<string, int>
    var bonds: map<string, BondPosition>
    var events: set<SettlementEvent>
    var slashEvidenceIds: set<Id>
    var settledRewardEpochs: set<int>

    function State(): Ledger
      reads this
    {
      Ledger(asset, treasury, reporterRewardBps, balances, bonds, events, slashEvidenceIds, settledRewardEpochs)
    }

    /** The source refuses an empty asset or treasury and a reporter share above 10000 basis points. */
    constructor (asset: string, treasury: string, reporterRewardBps: int)
      requires asset != "" && treasury != "" && 0 <= reporterRewardBps <= 10_000
      ensures State() == Ledger(asset, treasury, reporterRewardBps, map[], map[], {}, {}, {})
      ensures Sound(State()) && Balance(State()) == 0
    {
      this.asset, this.treasury, this.reporterRewardBps := asset, treasury, reporterRewardBps;
      balances, bonds, events, slashEvidenceIds, settledRewardEpochs := map[], map[], {}, {}, {};
    }

    method Credit(account: string, amount: int) returns (r: Result<(), SettlementError>)
      modifies this`balances
      ensures Settled(State(), r) == old(State()).Credit(account, amount)
    {
      if account == "" || amount < 0 { return Err(SettlementError); }
      balances := balances[account := State().BalanceOf(account) + amount];
      return Ok(());
    }

    method Debit(account: string, amount: int) returns (r: Result<(), SettlementError>)
      modifies this`balances
      ensures Settled(State(), r) == old(State()).Debit(account, amount)
    {
      if amount < 0 || State().BalanceOf(account) < amount { return Err(SettlementError); }
      balances := balances[account := State().BalanceOf(account) - amount];
      return Ok(());
    }

    method Record(kind: Kind, epoch: int, account: string, amount: int, relatedId: Id)
      returns (r: Result<SettlementEvent, SettlementError>)
      modifies this`events
      ensures Settled(State(), r) == old(State()).Record(old(State()).NewEvent(kind, epoch, account, amount, relatedId))
    {
      var event := SettlementEvent(kind, epoch, account, amount, asset, relatedId);
      if event in events { return Err(SettlementError); }
      events := events + {event};
      return Ok(event);
    }

    method Fund(account: string, amount: int, epoch: int, source: Option<Id>)
      returns (r: Result<SettlementEvent, SettlementError>)
      modifies this
      ensures Settled(State(), r) == old(State()).Fund(account, amount, epoch, source)
    {
      if amount <= 0 || account == "" { return Err(SettlementError); }
      var related := if source.None? || source.value == Name("") then FundSource(account, amount, epoch) else source.value;
      r := Record(Kind.Fund, epoch, account, amount, related);
      if r.Err? { return; }
      var credited := Credit(account, amount);
      if credited.Err? { return Err(SettlementError); }
    }

    method Bond(bond: StakeBond, currentEpoch: int) returns (r: Result<SettlementEvent, SettlementError>)
      modifies this
      ensures Settled(State(), r) == old(State()).Bond(bond, currentEpoch)
    {
      var b := bond.statement;
      if !bond.Verify() || b.asset != asset || b.activationEpoch > currentEpoch || b.bondId in bonds {
        return Err(SettlementError);
      }
      var debited := Debit(b.owner, b.amount);
      if debited.Err? { return Err(SettlementError); }
      bonds := bonds[b.bondId := BondPosition(b.owner, b.asset, b.amount, b.unlockEpoch, true, false)];
      r := Record(BondStake, currentEpoch, b.owner, b.amount, Name(b.bondId));
    }

    method RequestUnbond(bondId: string, currentEpoch: int, delay: int) returns (r: Result<SettlementEvent, SettlementError>)
      modifies this
      ensures Settled(State(), r) == old(State()).RequestUnbond(bondId, currentEpoch, delay)
    {
      if bondId !in bonds { return Err(SettlementError); }
      var position := bonds[bondId];
      if delay < 0 || !position.active || position.unbonding { return Err(SettlementError); }
      bonds := bonds[bondId := BondPosition(position.owner, position.asset, position.amount,
                                            Max(position.unlockEpoch, currentEpoch + delay), false, true)];
      r := Record(UnbondRequest, currentEpoch, position.owner, 0, Name(bondId));
    }

    method Withdraw(bondId: string, currentEpoch: int) returns (r: Result<SettlementEvent, SettlementError>)
      modifies this
      ensures Settled(State(), r) == old(State()).Withdraw(bondId, currentEpoch)
    {
      if bondId !in bonds { return Err(SettlementError); }
      var position := bonds[bondId];
      if position.active { return Err(SettlementError); }
      if !position.unbonding || currentEpoch < position.unlockEpoch { return Err(SettlementError); }
      bonds := bonds - {bondId};
      var credited := Credit(position.owner, position.amount);
      if credited.Err? { return Err(SettlementError); }
      r := Record(Kind.Withdraw, currentEpoch, position.owner, position.amount, Name(bondId));
    }

    method Dock(bondId: string, penalty: int, evidenceId: Id)
      requires bondId in bonds
      modifies this`bonds, this`slashEvidenceIds
      ensures State() == old(State()).Docked(bondId, penalty, evidenceId)
    {
      var position := bonds[bondId];
      slashEvidenceIds := slashEvidenceIds + {evidenceId};
      bonds := bonds[bondId := BondPosition(position.owner, position.asset, position.amount - penalty,
                                            position.unlockEpoch, position.active && position.amount > penalty,
                                            position.unbonding)];
    }

    method Slash(bondId: string, amount: int, epoch: int, evidenceId: Id, reporter: Option<string>)
      returns (r: Result<seq<SettlementEvent>, SettlementError>)
      modifies this
      ensures Settled(State(), r) == old(State()).Slash(bondId, amount, epoch, evidenceId, reporter)
    {
      hide Ledger.Docked, Ledger.Record, Ledger.Credit;
      if amount <= 0 || evidenceId == Name("") { return Err(SettlementError); }
      if evidenceId in slashEvidenceIds { return Err(SettlementError); }
      if bondId !in bonds { return Err(SettlementError); }
      var position := bonds[bondId];
      var penalty := Min(amount, position.amount);
      var reporterAmount := State().ReporterShare(penalty, reporter);
      Dock(bondId, penalty, evidenceId);
      var slashed := Record(Kind.Slash, epoch, position.owner, penalty, evidenceId);
      if slashed.Err? { return Err(SettlementError); }
      var paid := Credit(treasury, penalty - reporterAmount);
      if paid.Err? { return Err(SettlementError); }
      if reporterAmount == 0 { return Ok([slashed.value]); }
      var rewarded := Credit(reporter.value, reporterAmount);
      if rewarded.Err? { return Err(SettlementError); }
      var noted := Record(ReporterReward, epoch, reporter.value, reporterAmount, evidenceId);
      if noted.Err? { return Err(SettlementError); }
      return Ok([slashed.value, noted.value]);
    }

    method ChargeFee(payer: string, amount: int, epoch: int, txId: Id) returns (r: Result<SettlementEvent, SettlementError>)
      modifies this
      ensures Settled(State(), r) == old(State()).ChargeFee(payer, amount, epoch, txId)
    {
      if amount <= 0 || txId == Name("") { return Err(SettlementError); }
      var debited := Debit(payer, amount);
      if debited.Err? { return Err(SettlementError); }
      var credited := Credit(treasury, amount);
      if credited.Err? { return Err(SettlementError); }
      r := Record(Fee, epoch, payer, amount, txId);
    }

    method DistributeRewards(epoch: int, total: int, weights: map<string, int>)
      returns (r: Result<seq<SettlementEvent>, SettlementError>)
      modifies this
      ensures Settled(State(), r) == old(State()).DistributeRewards(epoch, total, weights)
    {
      hide SumOver, SortedNames, Ledger.PayRewards, ListWeight, Ledger.Debit;
      if State().RewardsRefused(epoch, total, weights) { return Err(SettlementError); }
      var sum := SumTable(weights, weights.Keys);
      PositiveSum(weights);
      var debited := Debit(treasury, total);
      if debited.Err? { return Err(SettlementError); }
      var ordered := SortedNames(weights.Keys);
      ghost var before := State();
      ListWeightIsSum(weights, weights.Keys);
      r := PayAll(epoch, total, weights, sum, ordered);
      if r.Ok? { settledRewardEpochs := settledRewardEpochs + {epoch}; }
    }

    method PayOne(epoch: int, bondId: string, amount: int) returns (r: Result<SettlementEvent, SettlementError>)
      modifies this`balances, this`events
      ensures Settled(State(), r) == old(State()).PayOne(epoch, bondId, amount)
    {
      if bondId !in bonds { return Err(SettlementError); }
      var owner := bonds[bondId].owner;
      var credited := Credit(owner, amount);
      if credited.Err? { return Err(SettlementError); }
      r := Record(Reward, epoch, owner, amount, Name(bondId));
    }

    /** The loop over the recipients. */
    method PayAll(epoch: int, total: int, weights: map<string, int>, sum: int, ordered: seq<string>)
      returns (r: Result<seq<SettlementEvent>, SettlementError>)
      requires sum > 0 && forall i :: 0 <= i < |ordered| ==> ordered[i] in weights
      modifies this`balances, this`events
      ensures Settled(State(), r) == old(State()).PayRewards(epoch, total, weights, sum, ordered, 0)
    {
      hide Ledger.PayOne;
      var distributed := 0;
      var paid: seq<SettlementEvent> := [];
      ghost var all := State().PayRewards(epoch, total, weights, sum, ordered, 0);
      assert ordered[0..] == ordered;
      for index := 0 to |ordered|
        invariant Continues(all, State().PayRewards(epoch, total, weights, sum, ordered[index..], distributed), paid)
      {
        var bondId := ordered[index];
        assert ordered[index..][0] == bondId && ordered[index..][1..] == ordered[index + 1..];
        var amount := if index == |ordered| - 1 then total - distributed else total * weights[bondId] / sum;
        assert amount == State().Share(total, weights, sum, ordered[index..], distributed);
        distributed := distributed + amount;
        var noted := PayOne(epoch, bondId, amount);
        if noted.Err? {
          OnlyError(all.result.error);
          return Err(SettlementError);
        }
        paid := paid + [noted.value];
      }
      assert ordered[|ordered|..] == [] && paid + [] == paid;
      return Ok(paid);
    }
  }

  lemma OnlyError(e: SettlementError)
    ensures e == SettlementError
  {}

  /** The whole distribution comes to what was paid so far followed by the rest. */
  predicate Continues(all: Settled<seq<SettlementEvent>>, rest: Settled<seq<SettlementEvent>>, paid: seq<SettlementEvent>) {
    && all.ledger == rest.ledger && all.result.Ok? == rest.result.Ok?
    && (all.result.Ok? ==> all.result.value == paid + rest.result.value)
  }

  // ----- Runs

  datatype Operation =
    | Fund(account: string, amount: int, epoch: int, source: Option<Id>)
    | Bond(bond: StakeBond, currentEpoch: int)
    | RequestUnbond(bondId: string, currentEpoch: int, delay: int)
    | Withdraw(bondId: string, currentEpoch: int)
    | Slash(bondId: string, amount: int, epoch: int, evidenceId: Id, reporter: Option<string>)
    | ChargeFee(account: string, amount: int, epoch: int, txId: Id)
    | DistributeRewards(epoch: int, total: int, weights: map<string, int>)

  ghost function Do(l: Ledger, op: Operation): Ledger {
    match op
    case Fund(account, amount, epoch, source) => l.Fund(account, amount, epoch, source).ledger
    case Bond(bond, epoch) => l.Bond(bond, epoch).ledger
    case RequestUnbond(b, epoch, delay) => l.RequestUnbond(b, epoch, delay).ledger
    case Withdraw(b, epoch) => l.Withdraw(b, epoch).ledger
    case Slash(b, amount, epoch, evidenceId, reporter) => l.Slash(b, amount, epoch, evidenceId, reporter).ledger
    case ChargeFee(account, amount, epoch, txId) => l.ChargeFee(account, amount, epoch, txId).ledger
    case DistributeRewards(epoch, total, weights) => l.DistributeRewards(epoch, total, weights).ledger
  }

  /** Rewards go to bonds the ledger knows. */
  predicate KnownRecipients(l: Ledger, op: Operation) { op.DistributeRewards? ==> op.weights.Keys <= l.bonds.Keys }

  /** The ledger after a run, if every distribution in it named known bonds only. */
  ghost function Run(l: Ledger, ops: seq<Operation>): Option<Ledger> {
    if ops == [] then Some(l)
    else
      match Run(l, ops[..|ops| - 1])
      case None => None
      case Some(m) => if KnownRecipients(m, ops[|ops| - 1]) then Some(Do(m, ops[|ops| - 1])) else None
  }

  lemma StepConserves(l: Ledger, op: Operation)
    requires Sound(l) && KnownRecipients(l, op)
    ensures KeepsBooks(l, Do(l, op))
  {
    hide Sound, Balance, Ledger.Fund, Ledger.Bond, Ledger.RequestUnbond, Ledger.Withdraw, Ledger.Slash, Ledger.ChargeFee,
         Ledger.DistributeRewards, Fundable;
    match op
    case Fund(account, amount, epoch, source) => FundBooks(l, account, amount, epoch, source);
    case Bond(bond, epoch) => BondBooks(l, bond, epoch);
    case RequestUnbond(b, epoch, delay) => UnbondBooks(l, b, epoch, delay);
    case Withdraw(b, epoch) => WithdrawBooks(l, b, epoch);
    case Slash(b, amount, epoch, evidenceId, reporter) => SlashBooks(l, b, amount, epoch, evidenceId, reporter);
    case ChargeFee(account, amount, epoch, txId) => FeeBooks(l, account, amount, epoch, txId);
    case DistributeRewards(epoch, total, weights) => DistributeExactly(l, epoch, total, weights);
  }

  /** Over every run, also across operations that raise: the ledger holds what was funded, and audit() is true. */
  lemma {:induction false} RunConserves(l: Ledger, ops: seq<Operation>)
    requires Sound(l) && Balance(l) == 0 && Run(l, ops).Some?
    ensures var q := Run(l, ops).value; Holdings(q) == Funded(q.events) && q.Audit() && Sound(q)
  {
    hide Do, KnownRecipients, Holdings, Funded, AllRemembered, Ledger.Audit;
    if ops != [] {
      RunConserves(l, ops[..|ops| - 1]);
      StepConserves(Run(l, ops[..|ops| - 1]).value, ops[|ops| - 1]);
    }
  }
}
