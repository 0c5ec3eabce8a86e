/**
 Slashes that part membership from its ledger, in runs from an empty manager: evidence from a future epoch, which the
 ledger settles and membership then refuses; and a validator that left, which a slash makes active again.
 */
module LateSlash {
  import opened Results
  import opened Settlement
  import opened Books
  import opened Membership
  import opened MembershipRuns
  import opened FirstStay

  function Evidence(epoch: int): SlashEvidence {
    SlashEvidence("one", epoch, "first", "second", ["witness"], Misbehaviour("one", epoch, "first", "second", ["witness"]))
  }

  function SlashNote(epoch: int, amount: int): SettlementEvent {
    SettlementEvent(Kind.Slash, epoch, "owner", amount, "asset", Evidence(epoch).evidenceId)
  }

  // ----- Evidence from a future epoch

  lemma AdmittedIsSound(delay: nat)
    ensures Sound(Admitted(delay).ledger) && Coupled(Admitted(delay)) && ExitsKnown(Admitted(delay))
  {
    assert Backed(Admitted(delay), "one");
    assert Remembered(Admitted(delay).ledger, Funding()) && Remembered(Admitted(delay).ledger, Note(BondStake, 5));
  }

  /** The bond loses 2, the stake nothing, and the evidence cannot be settled again in its own epoch. */
  lemma EarlyEvidenceParts()
    ensures var r := Play(Fresh(1), [FUNDING, ADMISSION]);
            var m := r.Slash(Evidence(1), Some(2));
            && Coupled(r) && !m.ok && !Coupled(m.registry)
            && "bond" in m.registry.ledger.bonds && "one" in m.registry.records
            && m.registry.ledger.bonds["bond"].amount == 3 && m.registry.records["one"].stake == 5
            && !m.registry.AdvanceEpoch().Slash(Evidence(1), Some(2)).ok
  {
    Opens(1);
    hide Play, Fresh;
    AdmittedIsSound(1);
    var r := Admitted(1);
    SlashFields(r.ledger, "bond", 2, 1, Evidence(1).evidenceId);
    hide Sound, ExitsKnown, Ledger.Slash;
    var q := r.Slash(Evidence(1), Some(2)).registry;
    assert !Backed(q, "one");
    SettledBefore(q.AdvanceEpoch());
  }

  lemma SettledBefore(r: Registry)
    requires Evidence(1).evidenceId in r.ledger.slashEvidenceIds
    ensures !r.Slash(Evidence(1), Some(2)).ok
  {}

  // ----- A validator that left

  const LEAVE := MemberOp.Exit("one", None)
  const PUNISH := MemberOp.Slash(Evidence(0), Some(2))

  function Left(): Registry {
    var position := BondPosition("owner", "asset", 5, 1, false, true);
    var l := Admitted(1).ledger;
    Admitted(1).(ledger := l.(bonds := map["bond" := position], events := l.events + {Note(UnbondRequest, 0)}),
                 records := map["one" := ValidatorRecord("key", 5, "one", false, 1, false)])
  }

  function Revived(): Registry {
    var position := BondPosition("owner", "asset", 3, 1, false, true);
    var l := Left().ledger;
    Left().(ledger := l.(bonds := map["bond" := position], balances := map["owner" := 15, "treasury" := 2],
                         events := l.events + {SlashNote(0, 2)}, slashEvidenceIds := {Evidence(0).evidenceId}),
            records := map["one" := ValidatorRecord("key", 3, "one", true, 1, false)],
            slashHistory := {Evidence(0).evidenceId})
  }

  lemma OneLeaves()
    ensures Do(Admitted(1), LEAVE) == Left()
  {}

  lemma OneIsPunished()
    ensures Do(Left(), PUNISH) == Revived()
  {
    assert Evidence(0).Verify();
  }

  lemma Reached()
    ensures Play(Fresh(1), [FUNDING, ADMISSION, LEAVE, PUNISH, AdvanceEpoch]) == Revived().AdvanceEpoch()
  {
    Opens(1);
    OneLeaves();
    OneIsPunished();
    var opening: seq<MemberOp> := [FUNDING, ADMISSION];
    var punished := opening + [LEAVE] + [PUNISH];
    assert Do(Revived(), AdvanceEpoch) == Revived().AdvanceEpoch();
    hide *;
    PlayNext(Fresh(1), opening, LEAVE);
    PlayNext(Fresh(1), opening + [LEAVE], PUNISH);
    PlayNext(Fresh(1), punished, AdvanceEpoch);
    assert punished + [AdvanceEpoch] == [FUNDING, ADMISSION, LEAVE, PUNISH, AdvanceEpoch];
  }

  /** Once the delay is over the ledger pays the bond out, and membership refuses because the validator is active. */
  lemma RevivedAndRefused()
    ensures var r := Play(Fresh(1), [FUNDING, ADMISSION, LEAVE, PUNISH, AdvanceEpoch]);
            && "one" in r.records && r.records["one"].active
            && "bond" in r.ledger.bonds && r.ledger.bonds["bond"].unbonding
            && r.ledger.Withdraw("bond", r.epoch).result.Ok? && !r.Withdraw("one", None).ok
            && r.ledger.BalanceOf("owner") == 15 && r.Withdraw("one", None).registry.ledger.BalanceOf("owner") == 18
            && "one" in r.Withdraw("one", None).registry.records
  {
    Reached();
    hide Play, Fresh, Do;
    var r := Revived().AdvanceEpoch();
    RevivedIsClean(r.ledger);
    assert r.ledger.NewEvent(Kind.Withdraw, 1, "owner", 3, Name("bond")) !in r.ledger.events;
    WithdrawFields(r.ledger, "bond", 1);
    hide Ledger.Withdraw, Clean;
  }

  lemma RevivedIsClean(l: Ledger)
    requires l == Revived().ledger
    ensures Clean(l)
  {}
}
