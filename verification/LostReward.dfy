/**
 A distribution that names an unknown bond, in a run from an empty ledger: it raises, and what it had not paid is gone.
 */
module LostReward {
  import opened Results
  import opened Settlement
  import opened Books
  import opened Rewards
  import opened SettlementLedgers

  const EMPTY := Ledger("asset", "treasury", 0, map[], map[], {}, {}, {})
  const FUNDING := Operation.Fund("treasury", 10, 0, None)
  const TO_NOBODY: map<string, int> := map["nobody" := 1]

  lemma EmptyIsSound()
    ensures Sound(EMPTY) && Balance(EMPTY) == 0
  {
    assert EMPTY.balances.Keys == {} && Amounts(EMPTY.bonds).Keys == {};
  }

  lemma FundedRun()
    ensures Run(EMPTY, [FUNDING]) == Some(Do(EMPTY, FUNDING))
    ensures Do(EMPTY, FUNDING).BalanceOf("treasury") == 10 && Do(EMPTY, FUNDING).bonds == map[]
    ensures Do(EMPTY, FUNDING).treasury == "treasury" && Do(EMPTY, FUNDING).settledRewardEpochs == {}
  {
    assert [FUNDING][..0] == [];
    assert Run(EMPTY, []) == Some(EMPTY);
  }

  /** The treasury was funded with 10, and now nobody has them, although audit() is true. */
  lemma UnknownBondLoses()
    ensures Run(EMPTY, [FUNDING]).Some?
    ensures var l := Run(EMPTY, [FUNDING]).value;
            var q := l.DistributeRewards(0, 10, TO_NOBODY);
            && Holdings(l) == Funded(l.events)
            && q.result.Err? && q.ledger.Audit() && Holdings(q.ledger) < Funded(q.ledger.events)
  {
    hide *;
    EmptyIsSound();
    FundedRun();
    RunConserves(EMPTY, [FUNDING]);
    var l := Do(EMPTY, FUNDING);
    NobodyIsFundable(l);
    DistributeExactly(l, 0, 10, TO_NOBODY);
    LessThanFunded(l, l.DistributeRewards(0, 10, TO_NOBODY).ledger);
  }

  lemma NobodyIsFundable(l: Ledger)
    requires l.BalanceOf(l.treasury) == 10 && l.bonds == map[] && l.settledRewardEpochs == {}
    ensures Fundable(l, 0, 10, TO_NOBODY) && !(TO_NOBODY.Keys <= l.bonds.Keys)
  {
    assert "nobody" in TO_NOBODY && "nobody" !in l.bonds;
  }

  lemma LessThanFunded(l: Ledger, q: Ledger)
    requires Holdings(l) == Funded(l.events) && Balance(q) != Balance(l) && Balance(q) <= Balance(l) && Clean(q)
    ensures q.Audit() && Holdings(q) < Funded(q.events)
  {
    hide Holdings, Funded;
  }
}
