/**
 The settlement ledger (mosaic/economics.py): what each operation does to balances, bonds and events, including what
 it leaves behind when it raises. An event's identifier is a digest of its contents, so the table of events is the
 set of the events themselves.
 */
module Settlement {
  import opened Results
  import opened Names
  import opened Sums

  /** Bond, transaction and evidence identifiers; the last two name what the source formats or digests into a string. */
  datatype Id = Name(text: string) | FundSource(account: string, amount: int, epoch: int)
              | NonReveal(epoch: int, round: int, validatorId: string)
              | Misbehaviour(offenderId: string, epoch: int, first: string, second: string, witnesses: seq<string>)

  datatype Kind = Fund | BondStake | UnbondRequest | Withdraw | Slash | ReporterReward | Fee | Reward

  datatype SettlementEvent = SettlementEvent(
    kind: Kind, epoch: int, account: string, amount: int, asset: string, relatedId: Id)

  datatype BondPosition = BondPosition(
    owner: string, asset: string, amount: int, unlockEpoch: int, active: bool, unbonding: bool)

  datatype BondStatement = BondStatement(
    bondId: string, owner: string, ownerPublicKey: string, amount: int, asset: string,
    activationEpoch: int, unlockEpoch: int)

  datatype BondSignature = SignedBond(key: string, statement: BondStatement) | OtherBytes(bytes: string)

  datatype StakeBond = StakeBond(statement: BondStatement, signature: BondSignature) {
    predicate Verify() {
      && statement.amount > 0
      && statement.activationEpoch >= 0
      && statement.unlockEpoch >= statement.activationEpoch
      && signature == SignedBond(statement.ownerPublicKey, statement)
    }
  }

  datatype SettlementError = SettlementError

  datatype Settled<T> = Settled(ledger: Ledger, result: Result<T, SettlementError>)

  function Refuse<T>(l: Ledger): Settled<T> { Settled(l, Err(SettlementError)) }

  function Min(a: int, b: int): int { if a <= b then a else b }

  function Max(a: int, b: int): int { if a >= b then a else b }

  datatype Ledger = Ledger(
    asset: string,
    treasury: string,
    reporterRewardBps: int,
    balances: map<string, int>,
    bonds: map<string, BondPosition>,
    events: set<SettlementEvent>,
    slashEvidenceIds: set<Id>,
    settledRewardEpochs: set<int>)
  {
    function BalanceOf(account: string): int { if account in balances then balances[account] else 0 }

    predicate Audit() {
      && (forall a :: a in balances ==> balances[a] >= 0)
      && (forall b :: b in bonds ==>
            bonds[b].amount >= 0 && bonds[b].asset == asset && !(bonds[b].active && bonds[b].unbonding))
      && (forall e :: e in events ==> e.amount >= 0 && e.asset == asset)
    }

    function NewEvent(kind: Kind, epoch: int, account: string, amount: int, relatedId: Id): SettlementEvent {
      SettlementEvent(kind, epoch, account, amount, asset, relatedId)
    }

    function Record(event: SettlementEvent): Settled<SettlementEvent> {
      if event in events then Refuse(this) else Settled(this.(events := events + {event}), Ok(event))
    }

    function Credit(account: string, amount: int): Settled<()> {
      if account == "" || amount < 0 then Refuse(this)
      else Settled(this.(balances := balances[account := BalanceOf(account) + amount]), Ok(()))
    }

    function Debit(account: string, amount: int): Settled<()> {
      if amount < 0 || BalanceOf(account) < amount then Refuse(this)
      else Settled(this.(balances := balances[account := BalanceOf(account) - amount]), Ok(()))
    }

    function Fund(account: string, amount: int, epoch: int, source: Option<Id>): Settled<SettlementEvent> {
      if amount <= 0 || account == "" then Refuse(this)
      else
        var related := if source.None? || source.value == Name("") then FundSource(account, amount, epoch) else source.value;
        var recorded := Record(NewEvent(Kind.Fund, epoch, account, amount, related));
        if recorded.result.Err? then recorded
        else
          var credited := recorded.ledger.Credit(account, amount);
          if credited.result.Err? then Refuse(credited.ledger) else Settled(credited.ledger, recorded.result)
    }

    function Bond(bond: StakeBond, currentEpoch: int): Settled<SettlementEvent> {
      var b := bond.statement;
      if !bond.Verify() || b.asset != asset || b.activationEpoch > currentEpoch || b.bondId in bonds then Refuse(this)
      else
        var debited := Debit(b.owner, b.amount);
        if debited.result.Err? then Refuse(debited.ledger)
        else
          var position := BondPosition(b.owner, b.asset, b.amount, b.unlockEpoch, true, false);
          var bonded := debited.ledger.(bonds := bonds[b.bondId := position]);
          bonded.Record(NewEvent(BondStake, currentEpoch, b.owner, b.amount, Name(b.bondId)))
    }

    function RequestUnbond(bondId: string, currentEpoch: int, delay: int): Settled<SettlementEvent> {
      if bondId !in bonds then Refuse(this)
      else
        var position := bonds[bondId];
        if delay < 0 || !position.active || position.unbonding then Refuse(this)
        else
          var updated := position.(unlockEpoch := Max(position.unlockEpoch, currentEpoch + delay), active := false,
                                   unbonding := true);
          this.(bonds := bonds[bondId := updated])
          .Record(NewEvent(UnbondRequest, currentEpoch, position.owner, 0, Name(bondId)))
    }

    function Withdraw(bondId: string, currentEpoch: int): Settled<SettlementEvent> {
      if bondId !in bonds then Refuse(this)
      else
        var position := bonds[bondId];
        if position.active || !position.unbonding || currentEpoch < position.unlockEpoch then Refuse(this)
        else
          var credited := this.(bonds := bonds - {bondId}).Credit(position.owner, position.amount);
          if credited.result.Err? then Refuse(credited.ledger)
          else credited.ledger.Record(NewEvent(Kind.Withdraw, currentEpoch, position.owner, position.amount, Name(bondId)))
    }

    function ReporterShare(penalty: int, reporter: Option<string>): int {
      if reporter.Some? && reporter.value != "" then penalty * reporterRewardBps / 10_000 else 0
    }

    /** The bond after losing the penalty. */
    function Docked(bondId: string, penalty: int, evidenceId: Id): Ledger
      requires bondId in bonds
    {
      var position := bonds[bondId];
      this.(slashEvidenceIds := slashEvidenceIds + {evidenceId},
            bonds := bonds[bondId := position.(amount := position.amount - penalty,
                                               active := position.active && position.amount > penalty)])
    }

    function Slash(bondId: string, amount: int, epoch: int, evidenceId: Id, reporter: Option<string>)
      : Settled<seq<SettlementEvent>>
    {
      if amount <= 0 || evidenceId == Name("") || evidenceId in slashEvidenceIds || bondId !in bonds then Refuse(this)
      else
        var position := bonds[bondId];
        var penalty := Min(amount, position.amount);
        var reporterAmount := ReporterShare(penalty, reporter);
        var slashed := Docked(bondId, penalty, evidenceId)
                       .Record(NewEvent(Kind.Slash, epoch, position.owner, penalty, evidenceId));
        if slashed.result.Err? then Refuse(slashed.ledger)
        else
          var paid := slashed.ledger.Credit(treasury, penalty - reporterAmount);
          if paid.result.Err? then Refuse(paid.ledger)
          else if reporterAmount == 0 then Settled(paid.ledger, Ok([slashed.result.value]))
          else
            var rewarded := paid.ledger.Credit(reporter.value, reporterAmount);
            if rewarded.result.Err? then Refuse(rewarded.ledger)
            else
              var noted := rewarded.ledger.Record(
                             NewEvent(ReporterReward, epoch, reporter.value, reporterAmount, evidenceId));
              if noted.result.Err? then Refuse(noted.ledger)
              else Settled(noted.ledger, Ok([slashed.result.value, noted.result.value]))
    }

    function ChargeFee(payer: string, amount: int, epoch: int, txId: Id): Settled<SettlementEvent> {
      if amount <= 0 || txId == Name("") then Refuse(this)
      else
        var debited := Debit(payer, amount);
        if debited.result.Err? then Refuse(debited.ledger)
        else
          var credited := debited.ledger.Credit(treasury, amount);
          if credited.result.Err? then Refuse(credited.ledger)
          else credited.ledger.Record(NewEvent(Fee, epoch, payer, amount, txId))
    }

    /** What the first of the remaining recipients gets: a floor share, or all that is left for the last. */
    function Share(total: int, weights: map<string, int>, weightSum: int, rest: seq<string>, distributed: int): int
      requires rest != [] && rest[0] in weights && weightSum > 0
    {
      if |rest| == 1 then total - distributed else total * weights[rest[0]] / weightSum
    }

    function PayOne(epoch: int, bondId: string, amount: int): Settled<SettlementEvent> {
      if bondId !in bonds then Refuse(this)
      else
        var credited := Credit(bonds[bondId].owner, amount);
        if credited.result.Err? then Refuse(credited.ledger)
        else credited.ledger.Record(NewEvent(Reward, epoch, bonds[bondId].owner, amount, Name(bondId)))
    }

    /** Pays the remaining recipients in order. */
    function PayRewards(epoch: int, total: int, weights: map<string, int>, weightSum: int, rest: seq<string>,
                        distributed: int): Settled<seq<SettlementEvent>>
      requires weightSum > 0 && forall i :: 0 <= i < |rest| ==> rest[i] in weights
      decreases |rest|
    {
      if rest == [] then Settled(this, Ok([]))
      else
        var amount := Share(total, weights, weightSum, rest, distributed);
        var one := PayOne(epoch, rest[0], amount);
        if one.result.Err? then Refuse(one.ledger)
        else
          var after := one.ledger.PayRewards(epoch, total, weights, weightSum, rest[1..], distributed + amount);
          Settled(after.ledger, if after.result.Ok? then Ok([one.result.value] + after.result.value) else after.result)
    }

    predicate RewardsRefused(epoch: int, total: int, weights: map<string, int>) {
      epoch in settledRewardEpochs || total <= 0 || weights == map[] || exists b :: b in weights && weights[b] <= 0
    }

    ghost function DistributeRewards(epoch: int, total: int, weights: map<string, int>): Settled<seq<SettlementEvent>> {
      if RewardsRefused(epoch, total, weights) then Refuse(this)
      else
        var debited := Debit(treasury, total);
        if debited.result.Err? then Refuse(debited.ledger)
        else
          PositiveSum(weights);
          var paid := debited.ledger.PayRewards(epoch, total, weights, Sum(weights), SortedNames(weights.Keys), 0);
          if paid.result.Err? then paid
          else Settled(paid.ledger.(settledRewardEpochs := paid.ledger.settledRewardEpochs + {epoch}), paid.result)
    }
  }

  // ----- Sums over tables

  lemma {:induction false} PositiveSumOver(m: map<string, int>, s: set<string>)
    requires s <= m.Keys && forall b :: b in m ==> m[b] > 0
    ensures SumOver(m, s) >= |s|
  {
    if s != {} {
      var x :| x in s;
      SumOverRemove(m, s, x);
      PositiveSumOver(m, s - {x});
    }
  }

  lemma PositiveSum(m: map<string, int>)
    requires m != map[] && forall b :: b in m ==> m[b] > 0
    ensures Sum(m) > 0
  {
    PositiveSumOver(m, m.Keys);
    NoKeysIsEmpty(m);
  }

  lemma NoKeysIsEmpty(m: map<string, int>)
    ensures m.Keys == {} ==> m == map[]
  {
    if m.Keys == {} { assert m == map[]; }
  }

  function Amounts(bonds: map<string, BondPosition>): map<string, int> { map b | b in bonds :: bonds[b].amount }

  /** Everything the ledger holds. */
  ghost function Holdings(l: Ledger): int { Sum(l.balances) + Sum(Amounts(l.bonds)) }

  /** Everything that was ever funded. */
  ghost function Funded(events: set<SettlementEvent>): int {
    if events == {} then 0
    else
      var e :| e in events;
      (if e.kind == Kind.Fund then e.amount else 0) + Funded(events - {e})
  }

  lemma {:induction false} FundedRemove(events: set<SettlementEvent>, e: SettlementEvent)
    requires e in events
    ensures Funded(events) == (if e.kind == Kind.Fund then e.amount else 0) + Funded(events - {e})
  {
    var f :| f in events && Funded(events) == (if f.kind == Kind.Fund then f.amount else 0) + Funded(events - {f});
    if f != e {
      FundedRemove(events - {f}, e);
      FundedRemove(events - {e}, f);
      assert events - {f} - {e} == events - {e} - {f};
    }
  }

  lemma FundedAdd(events: set<SettlementEvent>, e: SettlementEvent)
    requires e !in events
    ensures Funded(events + {e}) == Funded(events) + if e.kind == Kind.Fund then e.amount else 0
  {
    FundedRemove(events + {e}, e);
    assert events + {e} - {e} == events;
  }
}
