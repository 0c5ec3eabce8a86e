/**
 Conservation of value: what the ledger holds is always what was funded, in every run and across calls that raise,
 except for a reward distribution that names an unknown bond.
 */
module Books {
  import opened Results
  import opened Names
  import opened Sums
  import opened Settlement

  ghost function Balance(l: Ledger): int { Holdings(l) - Funded(l.events) }

  /** Accounts and owners are named, and nothing is negative or of another asset. */
  ghost predicate Clean(l: Ledger) {
    && l.treasury != "" && 0 <= l.reporterRewardBps <= 10_000
    && "" !in l.balances && (forall b :: b in l.bonds ==> l.bonds[b].owner != "")
    && l.Audit()
  }

  predicate Remembered(l: Ledger, e: SettlementEvent) {
    && (e.kind in {Kind.Slash, ReporterReward} ==> e.relatedId in l.slashEvidenceIds)
    && (e.kind == Reward ==> e.epoch in l.settledRewardEpochs)
  }

  /** A slash or a reward on record is also in the set that guards against settling it again. */
  ghost predicate AllRemembered(l: Ledger) { forall e :: e in l.events ==> Remembered(l, e) }

  ghost predicate Sound(l: Ledger) { Clean(l) && AllRemembered(l) }

  lemma CreditBooks(l: Ledger, account: string, amount: int)
    requires Clean(l) && account != "" && amount >= 0
    ensures var q := l.Credit(account, amount);
            && q.result.Ok? && Clean(q.ledger) && Holdings(q.ledger) == Holdings(l) + amount
            && q.ledger == l.(balances := q.ledger.balances)
  {
    SumUpdate(l.balances, account, l.BalanceOf(account) + amount);
    hide Sum, Amounts;
  }

  lemma DebitBooks(l: Ledger, account: string, amount: int)
    requires Clean(l)
    ensures var q := l.Debit(account, amount);
            if q.result.Ok? && amount > 0
            then Clean(q.ledger) && Holdings(q.ledger) == Holdings(l) - amount && account != ""
                 && q.ledger == l.(balances := q.ledger.balances)
            else amount > 0 ==> q.ledger == l
  {
    SumUpdate(l.balances, account, l.BalanceOf(account) - amount);
    hide Sum, Amounts;
  }

  lemma RecordBooks(l: Ledger, e: SettlementEvent)
    requires Clean(l) && e.amount >= 0 && e.asset == l.asset
    ensures var q := l.Record(e);
            && Clean(q.ledger) && Holdings(q.ledger) == Holdings(l)
            && Funded(q.ledger.events) == Funded(l.events) + (if q.result.Ok? && e.kind == Kind.Fund then e.amount else 0)
            && q.ledger == l.(events := q.ledger.events)
  {
    if e !in l.events { FundedAdd(l.events, e); }
    hide Holdings, Funded;
  }

  lemma SetBond(l: Ledger, bondId: string, position: BondPosition)
    requires Clean(l) && position.amount >= 0 && position.asset == l.asset && position.owner != ""
    requires !(position.active && position.unbonding)
    ensures var q := l.(bonds := l.bonds[bondId := position]);
            Clean(q) && Holdings(q) == Holdings(l) + position.amount - (if bondId in l.bonds then l.bonds[bondId].amount else 0)
  {
    SetAmount(l, bondId, position);
    hide Holdings;
  }

  lemma SetAmount(l: Ledger, bondId: string, position: BondPosition)
    ensures var q := l.(bonds := l.bonds[bondId := position]);
            Holdings(q) == Holdings(l) + position.amount - (if bondId in l.bonds then l.bonds[bondId].amount else 0)
  {
    var q := l.(bonds := l.bonds[bondId := position]);
    assert Amounts(q.bonds) == Amounts(l.bonds)[bondId := position.amount];
    SumUpdate(Amounts(l.bonds), bondId, position.amount);
    hide Sum;
  }

  lemma DropBond(l: Ledger, bondId: string)
    requires Clean(l) && bondId in l.bonds
    ensures var q := l.(bonds := l.bonds - {bondId});
            Clean(q) && Holdings(q) == Holdings(l) - l.bonds[bondId].amount
  {
    var q := l.(bonds := l.bonds - {bondId});
    assert Amounts(q.bonds) == Amounts(l.bonds) - {bondId};
    SumWithout(Amounts(l.bonds), bondId);
    hide Sum;
  }

  /** The operation kept the ledger sound and its books as they were. */
  ghost predicate KeepsBooks(l: Ledger, q: Ledger) { Sound(q) && Balance(q) == Balance(l) }

  lemma RememberMore(l: Ledger, q: Ledger, e: SettlementEvent)
    requires AllRemembered(l) && q.events <= l.events + {e} && Remembered(q, e)
    requires l.slashEvidenceIds <= q.slashEvidenceIds && l.settledRewardEpochs <= q.settledRewardEpochs
    ensures AllRemembered(q)
  {
    forall f | f in q.events ensures Remembered(q, f) {
      if f != e { assert Remembered(l, f); }
    }
  }

  lemma FundBooks(l: Ledger, account: string, amount: int, epoch: int, source: Option<Id>)
    requires Sound(l)
    ensures KeepsBooks(l, l.Fund(account, amount, epoch, source).ledger)
  {
    hide Holdings, Funded, Clean, AllRemembered, Remembered, Ledger.Credit, Ledger.Record;
    if amount > 0 && account != "" {
      var related := if source.None? || source.value == Name("") then FundSource(account, amount, epoch) else source.value;
      var e := l.NewEvent(Kind.Fund, epoch, account, amount, related);
      RecordBooks(l, e);
      var r := l.Record(e);
      CreditBooks(r.ledger, account, amount);
      RecordFacts(l, e);
      RememberMore(l, r.ledger.Credit(account, amount).ledger, e);
    }
  }

  lemma RecordFacts(l: Ledger, e: SettlementEvent)
    ensures l.Record(e).ledger.events <= l.events + {e}
    ensures !(e.kind in {Kind.Slash, ReporterReward, Reward}) ==> forall q :: Remembered(q, e)
    ensures l.Record(e).result.Err? ==> l.Record(e).ledger == l
  {}

  lemma BondBooks(l: Ledger, bond: StakeBond, epoch: int)
    requires Sound(l)
    ensures KeepsBooks(l, l.Bond(bond, epoch).ledger)
  {
    hide Holdings, Funded, Clean, AllRemembered, Remembered, Ledger.Debit, Ledger.Record;
    var b := bond.statement;
    if bond.Verify() && b.asset == l.asset && b.activationEpoch <= epoch && b.bondId !in l.bonds {
      DebitBooks(l, b.owner, b.amount);
      var d := l.Debit(b.owner, b.amount);
      if d.result.Ok? {
        var position := BondPosition(b.owner, b.asset, b.amount, b.unlockEpoch, true, false);
        SetBond(d.ledger, b.bondId, position);
        var m := d.ledger.(bonds := l.bonds[b.bondId := position]);
        var e := l.NewEvent(BondStake, epoch, b.owner, b.amount, Name(b.bondId));
        RecordBooks(m, e);
        RecordFacts(m, e);
        RememberMore(l, m.Record(e).ledger, e);
      }
    }
  }

  lemma BondOf(l: Ledger, bondId: string)
    requires Clean(l) && bondId in l.bonds
    ensures var b := l.bonds[bondId]; b.amount >= 0 && b.asset == l.asset && b.owner != "" && !(b.active && b.unbonding)
  {}

  lemma UnbondBooks(l: Ledger, bondId: string, epoch: int, delay: int)
    requires Sound(l)
    ensures KeepsBooks(l, l.RequestUnbond(bondId, epoch, delay).ledger)
  {
    hide Holdings, Funded, Clean, AllRemembered, Remembered, Ledger.Record;
    if bondId in l.bonds && delay >= 0 && l.bonds[bondId].active && !l.bonds[bondId].unbonding {
      BondOf(l, bondId);
      var was := l.bonds[bondId];
      var updated := was.(unlockEpoch := Max(was.unlockEpoch, epoch + delay), active := false, unbonding := true);
      SetBond(l, bondId, updated);
      var m := l.(bonds := l.bonds[bondId := updated]);
      var e := m.NewEvent(UnbondRequest, epoch, was.owner, 0, Name(bondId));
      RecordBooks(m, e);
      RecordFacts(m, e);
      RememberMore(l, m.Record(e).ledger, e);
    }
  }

  lemma WithdrawBooks(l: Ledger, bondId: string, epoch: int)
    requires Sound(l)
    ensures KeepsBooks(l, l.Withdraw(bondId, epoch).ledger)
  {
    hide Holdings, Funded, Clean, AllRemembered, Remembered, Ledger.Record, Ledger.Credit;
    if bondId in l.bonds && !l.bonds[bondId].active && l.bonds[bondId].unbonding && epoch >= l.bonds[bondId].unlockEpoch {
      BondOf(l, bondId);
      var was := l.bonds[bondId];
      DropBond(l, bondId);
      var m := l.(bonds := l.bonds - {bondId});
      CreditBooks(m, was.owner, was.amount);
      var n := m.Credit(was.owner, was.amount).ledger;
      var e := n.NewEvent(Kind.Withdraw, epoch, was.owner, was.amount, Name(bondId));
      RecordBooks(n, e);
      RecordFacts(n, e);
      RememberMore(l, n.Record(e).ledger, e);
    }
  }

  lemma FeeBooks(l: Ledger, payer: string, amount: int, epoch: int, txId: Id)
    requires Sound(l)
    ensures KeepsBooks(l, l.ChargeFee(payer, amount, epoch, txId).ledger)
  {
    hide Holdings, Funded, AllRemembered, Remembered, Ledger.Record, Ledger.Credit, Ledger.Debit, Ledger.Audit;
    if amount > 0 && txId != Name("") {
      DebitBooks(l, payer, amount);
      var d := l.Debit(payer, amount);
      if d.result.Ok? {
        CreditBooks(d.ledger, l.treasury, amount);
        var n := d.ledger.Credit(l.treasury, amount).ledger;
        var e := n.NewEvent(Fee, epoch, payer, amount, txId);
        RecordBooks(n, e);
        RecordFacts(n, e);
        RememberMore(l, n.Record(e).ledger, e);
      }
    }
  }

  // ----- Slashing

  lemma ShareBounds(l: Ledger, penalty: int, reporter: Option<string>)
    requires 0 <= l.reporterRewardBps <= 10_000 && penalty >= 0
    ensures 0 <= l.ReporterShare(penalty, reporter) <= penalty
    ensures l.ReporterShare(penalty, reporter) > 0 ==> reporter.Some? && reporter.value != ""
  {
    var bps := l.reporterRewardBps;
    assert 0 <= penalty * bps <= penalty * 10_000;
  }

  /** A fresh evidence identifier has no slash and no reporter reward on record. */
  lemma FreshEvidence(l: Ledger, kind: Kind, epoch: int, account: string, amount: int, evidenceId: Id)
    requires AllRemembered(l) && evidenceId !in l.slashEvidenceIds && kind in {Kind.Slash, ReporterReward}
    ensures l.NewEvent(kind, epoch, account, amount, evidenceId) !in l.events
  {
    hide AllRemembered, Remembered;
    var e := l.NewEvent(kind, epoch, account, amount, evidenceId);
    if e in l.events { RecordedEvidence(l, e); }
  }

  lemma RecordedEvidence(l: Ledger, e: SettlementEvent)
    requires AllRemembered(l) && e in l.events && e.kind in {Kind.Slash, ReporterReward}
    ensures e.relatedId in l.slashEvidenceIds
  {
    assert Remembered(l, e);
  }

  /** The bond docked, the slash on record, and the treasury's part paid. */
  function Slashed(l: Ledger, bondId: string, penalty: int, share: int, epoch: int, evidenceId: Id): Ledger
    requires bondId in l.bonds
  {
    var e := l.NewEvent(Kind.Slash, epoch, l.bonds[bondId].owner, penalty, evidenceId);
    l.Docked(bondId, penalty, evidenceId)
    .(events := l.events + {e}, balances := l.balances[l.treasury := l.BalanceOf(l.treasury) + penalty - share])
  }

  function Rewarded(l: Ledger, reporter: string, share: int, epoch: int, evidenceId: Id): Ledger {
    l.(events := l.events + {l.NewEvent(ReporterReward, epoch, reporter, share, evidenceId)},
       balances := l.balances[reporter := l.BalanceOf(reporter) + share])
  }

  /** The ledger after a slash that passes its guards. */
  function AfterSlash(l: Ledger, bondId: string, amount: int, epoch: int, evidenceId: Id, reporter: Option<string>): Ledger
    requires bondId in l.bonds
  {
    var penalty := Min(amount, l.bonds[bondId].amount);
    var share := l.ReporterShare(penalty, reporter);
    var slashed := Slashed(l, bondId, penalty, share, epoch, evidenceId);
    if share == 0 || reporter.None? then slashed else Rewarded(slashed, reporter.value, share, epoch, evidenceId)
  }

  predicate SlashPasses(l: Ledger, bondId: string, amount: int, evidenceId: Id) {
    amount > 0 && evidenceId != Name("") && evidenceId !in l.slashEvidenceIds && bondId in l.bonds
  }

  /** slash raises only before it changes anything: once its guards pass it runs to the end. */
  lemma SlashExactly(l: Ledger, bondId: string, amount: int, epoch: int, evidenceId: Id, reporter: Option<string>)
    requires Sound(l)
    ensures var q := l.Slash(bondId, amount, epoch, evidenceId, reporter);
            if SlashPasses(l, bondId, amount, evidenceId)
            then BondOf(l, bondId); q.result.Ok? && q.ledger == AfterSlash(l, bondId, amount, epoch, evidenceId, reporter)
            else q.result.Err? && q.ledger == l
  {
    if SlashPasses(l, bondId, amount, evidenceId) {
      BondOf(l, bondId);
      var penalty := Min(amount, l.bonds[bondId].amount);
      var share := l.ReporterShare(penalty, reporter);
      ShareBounds(l, penalty, reporter);
      FreshEvidence(l, Kind.Slash, epoch, l.bonds[bondId].owner, penalty, evidenceId);
      if share > 0 { FreshEvidence(l, ReporterReward, epoch, reporter.value, share, evidenceId); }
    }
    hide AllRemembered, Ledger.Audit, Ledger.ReporterShare;
  }

  lemma SlashBooks(l: Ledger, bondId: string, amount: int, epoch: int, evidenceId: Id, reporter: Option<string>)
    requires Sound(l)
    ensures KeepsBooks(l, l.Slash(bondId, amount, epoch, evidenceId, reporter).ledger)
  {
    SlashExactly(l, bondId, amount, epoch, evidenceId, reporter);
    hide Holdings, Funded, AllRemembered, Remembered, Ledger.Slash, Clean, Ledger.ReporterShare, AfterSlash;
    if SlashPasses(l, bondId, amount, evidenceId) {
      BondOf(l, bondId);
      AfterSlashBooks(l, bondId, amount, epoch, evidenceId, reporter);
    }
  }

  lemma DockedBooks(l: Ledger, bondId: string, penalty: int, evidenceId: Id)
    requires Sound(l) && bondId in l.bonds && 0 <= penalty <= l.bonds[bondId].amount
    ensures var q := l.Docked(bondId, penalty, evidenceId); Clean(q) && Holdings(q) == Holdings(l) - penalty
  {
    BondOf(l, bondId);
    var was := l.bonds[bondId];
    var now := was.(amount := was.amount - penalty, active := was.active && was.amount > penalty);
    hide AllRemembered, Holdings;
    SetBond(l, bondId, now);
    EvidenceKeepsBooks(l.(bonds := l.bonds[bondId := now]), l.slashEvidenceIds + {evidenceId});
    hide Clean;
  }

  lemma EvidenceKeepsBooks(l: Ledger, ids: set<Id>)
    requires Clean(l)
    ensures Clean(l.(slashEvidenceIds := ids)) && Holdings(l.(slashEvidenceIds := ids)) == Holdings(l)
  {
    hide Sum, Amounts;
  }

  /** One event recorded and one account paid. */
  lemma NoteAndPay(l: Ledger, e: SettlementEvent, account: string, amount: int)
    requires Clean(l) && account != "" && amount >= 0
    requires e !in l.events && e.kind != Kind.Fund && e.amount >= 0 && e.asset == l.asset
    ensures var q := l.(events := l.events + {e}, balances := l.balances[account := l.BalanceOf(account) + amount]);
            Clean(q) && Balance(q) == Balance(l) + amount
  {
    hide Holdings, Funded, Clean;
    RecordBooks(l, e);
    var noted := l.(events := l.events + {e});
    CreditBooks(noted, account, amount);
    CreditFields(noted, account, amount);
  }

  lemma SlashedBooks(l: Ledger, bondId: string, penalty: int, share: int, epoch: int, evidenceId: Id)
    requires Sound(l) && bondId in l.bonds && evidenceId !in l.slashEvidenceIds
    requires 0 <= share <= penalty <= l.bonds[bondId].amount
    ensures var q := Slashed(l, bondId, penalty, share, epoch, evidenceId);
            && Sound(q) && Balance(q) == Balance(l) - share && evidenceId in q.slashEvidenceIds
  {
    assert l.treasury != "";
    hide Holdings, Funded, AllRemembered, Clean, Ledger.Docked, Ledger.Credit;
    var docked := l.Docked(bondId, penalty, evidenceId);
    DockedBooks(l, bondId, penalty, evidenceId);
    DockedFields(l, bondId, penalty, evidenceId);
    FreshEvidence(l, Kind.Slash, epoch, l.bonds[bondId].owner, penalty, evidenceId);
    var e := l.NewEvent(Kind.Slash, epoch, l.bonds[bondId].owner, penalty, evidenceId);
    NoteAndPay(docked, e, l.treasury, penalty - share);
    RememberMore(l, Slashed(l, bondId, penalty, share, epoch, evidenceId), e);
  }

  lemma AfterSlashBooks(l: Ledger, bondId: string, amount: int, epoch: int, evidenceId: Id, reporter: Option<string>)
    requires Sound(l) && SlashPasses(l, bondId, amount, evidenceId)
    ensures KeepsBooks(l, AfterSlash(l, bondId, amount, epoch, evidenceId, reporter))
  {
    assert 0 <= l.reporterRewardBps <= 10_000;
    BondOf(l, bondId);
    hide Clean, AllRemembered, Holdings, Funded, Slashed, Rewarded, Ledger.ReporterShare;
    var penalty := Min(amount, l.bonds[bondId].amount);
    var share := l.ReporterShare(penalty, reporter);
    ShareBounds(l, penalty, reporter);
    SlashedBooks(l, bondId, penalty, share, epoch, evidenceId);
    if share > 0 {
      FreshEvidence(l, ReporterReward, epoch, reporter.value, share, evidenceId);
      SlashedEvents(l, bondId, penalty, share, epoch, evidenceId);
      RewardReporter(Slashed(l, bondId, penalty, share, epoch, evidenceId), reporter.value, share, epoch, evidenceId);
    }
  }

  lemma SlashedEvents(l: Ledger, bondId: string, penalty: int, share: int, epoch: int, evidenceId: Id)
    requires bondId in l.bonds
    ensures var q := Slashed(l, bondId, penalty, share, epoch, evidenceId);
            q.asset == l.asset && forall e :: e in q.events && e.kind == ReporterReward ==> e in l.events
  {}

  lemma DockedFields(l: Ledger, bondId: string, penalty: int, evidenceId: Id)
    requires bondId in l.bonds
    ensures var q := l.Docked(bondId, penalty, evidenceId);
            q == l.(slashEvidenceIds := l.slashEvidenceIds + {evidenceId}, bonds := q.bonds)
  {}

  lemma CreditFields(l: Ledger, account: string, amount: int)
    requires account != "" && amount >= 0
    ensures l.Credit(account, amount).ledger == l.(balances := l.balances[account := l.BalanceOf(account) + amount])
  {}

  lemma RewardReporter(l: Ledger, reporter: string, share: int, epoch: int, evidenceId: Id)
    requires Sound(l) && reporter != "" && share >= 0 && evidenceId in l.slashEvidenceIds
    requires l.NewEvent(ReporterReward, epoch, reporter, share, evidenceId) !in l.events
    ensures var q := Rewarded(l, reporter, share, epoch, evidenceId); Sound(q) && Balance(q) == Balance(l) + share
  {
    hide Holdings, Funded, Clean, AllRemembered;
    var f := l.NewEvent(ReporterReward, epoch, reporter, share, evidenceId);
    NoteAndPay(l, f, reporter, share);
    RememberMore(l, Rewarded(l, reporter, share, epoch, evidenceId), f);
  }
}
