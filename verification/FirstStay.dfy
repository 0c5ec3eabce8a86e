/**
 The short run of membership that concrete ones start from: an owner funded, and a validator admitted with its bond.
 */
module FirstStay {
  import opened Results
  import opened Settlement
  import opened Membership
  import opened MembershipRuns

  lemma PlayNext(r: Registry, ops: seq<MemberOp>, op: MemberOp)
    ensures Play(r, ops + [op]) == Do(Play(r, ops), op)
  {
    assert (ops + [op])[..|ops|] == ops && (ops + [op])[|ops|] == op;
  }

  lemma PlayNothing(r: Registry)
    ensures Play(r, []) == r
  {}

  /** A manager and a ledger as their constructors make them. */
  function Fresh(delay: nat): Registry {
    Registry(Ledger("asset", "treasury", 0, map[], map[], {}, {}, {}), 1, delay, 0, map[], {}, map[], {}, {})
  }

  function Request(v: string, stake: int): AdmissionRequest {
    var s := AdmissionStatement(v, "key", stake, v, 0, Some("bond"));
    AdmissionRequest(s, SignedAdmission("key", s))
  }

  function BondOver(amount: int): StakeBond {
    var s := BondStatement("bond", "owner", "key", amount, "asset", 0, 0);
    StakeBond(s, SignedBond("key", s))
  }

  const FUNDING := MemberOp.Fund("owner", 20, None)
  const ADMISSION := MemberOp.Admit(Request("one", 5), Some(BondOver(5)))

  function Funding(): SettlementEvent { SettlementEvent(Kind.Fund, 0, "owner", 20, "asset", FundSource("owner", 20, 0)) }

  function Note(kind: Kind, amount: int): SettlementEvent { SettlementEvent(kind, 0, "owner", amount, "asset", Name("bond")) }

  function OwnerFunded(delay: nat): Registry {
    Fresh(delay).(ledger := Fresh(delay).ledger.(balances := map["owner" := 20], events := {Funding()}))
  }

  function Position(amount: int): BondPosition { BondPosition("owner", "asset", amount, 0, true, false) }

  function Admitted(delay: nat): Registry {
    Registry(Ledger("asset", "treasury", 0, map["owner" := 15], map["bond" := Position(5)], {Funding(), Note(BondStake, 5)},
                    {}, {}),
             1, delay, 0, map["one" := ValidatorRecord("key", 5, "one", true, 0, false)], {"one"}, map["one" := "bond"], {}, {})
  }

  lemma FundOwner(delay: nat)
    ensures Do(Fresh(delay), FUNDING) == OwnerFunded(delay)
  {}

  lemma AdmitOne(delay: nat)
    ensures Do(OwnerFunded(delay), ADMISSION) == Admitted(delay)
  {}

  /** Funding the owner and admitting "one" with a bond of 5. */
  lemma Opens(delay: nat)
    ensures Play(Fresh(delay), [FUNDING, ADMISSION]) == Admitted(delay)
  {
    hide Do, Fresh, OwnerFunded, Admitted, Play;
    PlayNothing(Fresh(delay));
    PlayNext(Fresh(delay), [], FUNDING);
    assert [] + [FUNDING] == [FUNDING];
    FundOwner(delay);
    PlayNext(Fresh(delay), [FUNDING], ADMISSION);
    assert [FUNDING] + [ADMISSION] == [FUNDING, ADMISSION];
    AdmitOne(delay);
  }
}
