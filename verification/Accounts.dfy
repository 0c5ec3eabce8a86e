/**
 Who pays whom: what each operation of the ledger moves, account by account and bond by bond.
 */
module Accounts {
  import opened Results
  import opened Settlement
  import opened Books

  /** Every account keeps its balance but for these amounts. */
  ghost predicate Moves(l: Ledger, q: Ledger, change: map<string, int>) {
    forall a :: q.BalanceOf(a) == l.BalanceOf(a) + if a in change then change[a] else 0
  }

  ghost predicate OtherBondsStay(l: Ledger, q: Ledger, bondId: string) {
    forall b :: b != bondId ==> (b in q.bonds <==> b in l.bonds) && (b in l.bonds ==> q.bonds[b] == l.bonds[b])
  }

  /** The account funded gains the amount, once for each source. */
  lemma FundMoves(l: Ledger, account: string, amount: int, epoch: int, source: Option<Id>)
    ensures var q := l.Fund(account, amount, epoch, source);
            if q.result.Ok? then amount > 0 && Moves(l, q.ledger, map[account := amount]) && q.ledger.bonds == l.bonds
            else q.ledger == l
    ensures var related := if source.None? || source.value == Name("") then FundSource(account, amount, epoch) else source.value;
            l.Fund(account, amount, epoch, source).result.Ok? <==>
            amount > 0 && account != "" && SettlementEvent(Kind.Fund, epoch, account, amount, l.asset, related) !in l.events
  {}

  /** A bond takes its amount from its owner, and is active, not unbonding, until its own unlock epoch. */
  lemma BondMoves(l: Ledger, bond: StakeBond, epoch: int)
    requires l.Bond(bond, epoch).result.Ok?
    ensures var q, b := l.Bond(bond, epoch).ledger, bond.statement;
            && Moves(l, q, map[b.owner := -b.amount]) && b.bondId !in l.bonds && OtherBondsStay(l, q, b.bondId)
            && b.bondId in q.bonds
            && q.bonds[b.bondId] == BondPosition(b.owner, b.asset, b.amount, b.unlockEpoch, true, false)
            && l.BalanceOf(b.owner) >= b.amount > 0 && b.asset == l.asset && b.activationEpoch <= epoch
  {}

  /** A request moves nothing; the bond is locked for the delay from now on, if not for longer already. */
  lemma UnbondMoves(l: Ledger, bondId: string, epoch: int, delay: int)
    requires l.RequestUnbond(bondId, epoch, delay).result.Ok?
    ensures var q := l.RequestUnbond(bondId, epoch, delay).ledger;
            && q.balances == l.balances && OtherBondsStay(l, q, bondId) && bondId in l.bonds && bondId in q.bonds
            && var was, now := l.bonds[bondId], q.bonds[bondId];
            && now == was.(unlockEpoch := now.unlockEpoch, active := false, unbonding := true)
            && was.active && !was.unbonding && delay >= 0
            && now.unlockEpoch >= was.unlockEpoch && now.unlockEpoch >= epoch + delay
            && (now.unlockEpoch == was.unlockEpoch || now.unlockEpoch == epoch + delay)
  {}

  /** A withdrawal pays the bond to its owner and drops it, not before its unlock epoch. */
  lemma WithdrawMoves(l: Ledger, bondId: string, epoch: int)
    requires l.Withdraw(bondId, epoch).result.Ok?
    ensures var q := l.Withdraw(bondId, epoch).ledger;
            && bondId in l.bonds && bondId !in q.bonds && OtherBondsStay(l, q, bondId)
            && Moves(l, q, map[l.bonds[bondId].owner := l.bonds[bondId].amount])
            && l.bonds[bondId].unbonding && !l.bonds[bondId].active && epoch >= l.bonds[bondId].unlockEpoch
  {}

  /** A fee goes from the payer to the treasury. */
  lemma FeeMoves(l: Ledger, payer: string, amount: int, epoch: int, txId: Id)
    requires l.ChargeFee(payer, amount, epoch, txId).result.Ok?
    ensures var q := l.ChargeFee(payer, amount, epoch, txId).ledger;
            && amount > 0 && l.BalanceOf(payer) >= amount && q.bonds == l.bonds
            && if payer == l.treasury then Moves(l, q, map[]) else Moves(l, q, map[payer := -amount, l.treasury := amount])
  {}

  /** A fee the payer can afford, for a transaction not charged so before, is taken. */
  lemma FeeExactly(l: Ledger, payer: string, amount: int, epoch: int, txId: Id)
    requires Clean(l)
    ensures l.ChargeFee(payer, amount, epoch, txId).result.Ok? <==>
            && amount > 0 && txId != Name("") && l.BalanceOf(payer) >= amount
            && SettlementEvent(Fee, epoch, payer, amount, l.asset, txId) !in l.events
  {}

  /** The reporter of a slash, if one is named, gets the floor of its share of the penalty. */
  ghost predicate ReporterPart(l: Ledger, penalty: int, reporter: Option<string>, part: int) {
    if reporter.None? || reporter.value == "" then part == 0
    else part * 10_000 <= penalty * l.reporterRewardBps < (part + 1) * 10_000
  }

  /**
   Every slash that passes takes from the bond the amount asked for, or all it holds; the reporter gets its part of that,
   the treasury the rest, and no other account or bond changes. A bond that loses everything is no longer active.
   */
  lemma SlashMoves(l: Ledger, bondId: string, amount: int, epoch: int, evidenceId: Id, reporter: Option<string>)
    returns (part: int)
    requires Sound(l) && SlashPasses(l, bondId, amount, evidenceId)
    ensures var q := l.Slash(bondId, amount, epoch, evidenceId, reporter);
            && q.result.Ok? && bondId in l.bonds && bondId in q.ledger.bonds && OtherBondsStay(l, q.ledger, bondId)
            && evidenceId in q.ledger.slashEvidenceIds
            && var was, now := l.bonds[bondId], q.ledger.bonds[bondId];
            && var penalty := if amount <= was.amount then amount else was.amount;
            && now == was.(amount := was.amount - penalty, active := was.active && was.amount > penalty)
            && 0 <= part <= penalty && ReporterPart(l, penalty, reporter, part)
            && if part == 0 || reporter.value == l.treasury then Moves(l, q.ledger, map[l.treasury := penalty])
               else Moves(l, q.ledger, map[l.treasury := penalty - part, reporter.value := part])
  {
    hide AllRemembered, Ledger.Slash, Ledger.ReporterShare, ReporterPart;
    SlashExactly(l, bondId, amount, epoch, evidenceId, reporter);
    BondOf(l, bondId);
    var penalty := Min(amount, l.bonds[bondId].amount);
    part := l.ReporterShare(penalty, reporter);
    ShareBounds(l, penalty, reporter);
    FloorPart(l, penalty, reporter);
    if part != 0 { NobodysPart(l, penalty, reporter, part); }
    hide Clean;
  }

  lemma NobodysPart(l: Ledger, penalty: int, reporter: Option<string>, part: int)
    requires ReporterPart(l, penalty, reporter, part) && part != 0
    ensures reporter.Some? && reporter.value != ""
  {}

  lemma FloorPart(l: Ledger, penalty: int, reporter: Option<string>)
    requires 0 <= l.reporterRewardBps && penalty >= 0
    ensures ReporterPart(l, penalty, reporter, l.ReporterShare(penalty, reporter))
  {
    var x := penalty * l.reporterRewardBps;
    assert x / 10_000 * 10_000 <= x < (x / 10_000 + 1) * 10_000;
  }
}
