/**
 Why exits alone do not suffice. Withdrawals may pass any epoch, so a bond identifier used again can be paid out a
 second time under the epoch of the first payment: the ledger drops the bond and credits its owner, then raises on the
 repeated event, and the validator stays recorded with a stake and no bond. Every exit on the way is clean.
 */
module RepeatedPayment {
  import opened Results
  import opened Settlement
  import opened Books
  import opened Membership
  import opened MembershipRuns
  import opened FirstStay
  import opened ReusedBond

  function Late(delay: nat): Option<int> { Some(delay + 1) }

  function NextRequest(): AdmissionRequest {
    var s := AdmissionStatement("two", "key", 5, "two", 1, Some("bond"));
    AdmissionRequest(s, SignedAdmission("key", s))
  }

  function NextNote(kind: Kind, amount: int): SettlementEvent {
    SettlementEvent(kind, 1, "owner", amount, "asset", Name("bond"))
  }

  const BACK := MemberOp.Admit(NextRequest(), Some(BondOver(5)))
  const LEAVE_AGAIN := MemberOp.Exit("two", None)

  function Waiting(delay: nat): Registry { Leaving(delay).(epoch := 1) }

  /** "one" was paid under the late epoch. */
  function Away(delay: nat): Registry {
    var l := Leaving(delay).ledger;
    Waiting(delay).(ledger := l.(bonds := map[], balances := map["owner" := 20], events := l.events + {Payment(delay + 1)}),
                    records := map[], bondOf := map[])
  }

  /** "two" took over identifier and amount. */
  function Returned(delay: nat): Registry {
    var l := Away(delay).ledger;
    Away(delay).(ledger := l.(bonds := map["bond" := Position(5)], balances := map["owner" := 15],
                              events := l.events + {NextNote(BondStake, 5)}),
                 records := map["two" := ValidatorRecord("key", 5, "two", true, 0, false)],
                 deposits := {"one", "two"}, bondOf := map["two" := "bond"])
  }

  function LeavingAgain(delay: nat): Registry {
    var l := Returned(delay).ledger;
    var position := BondPosition("owner", "asset", 5, delay + 1, false, true);
    Returned(delay).(ledger := l.(bonds := map["bond" := position], events := l.events + {NextNote(UnbondRequest, 0)}),
                     records := map["two" := ValidatorRecord("key", 5, "two", false, delay + 1, false)])
  }

  lemma OneIsPaidLate(delay: nat)
    ensures Do(Waiting(delay), MemberOp.Withdraw("one", Late(delay))) == Away(delay)
  {
    var r := Waiting(delay);
    assert r.ledger.bonds - {"bond"} == map[] && r.records - {"one"} == map[] && r.bondOf - {"one"} == map[];
  }

  lemma TwoComes(delay: nat)
    ensures Do(Away(delay), BACK) == Returned(delay)
  {}

  lemma TwoLeaves(delay: nat)
    ensures Do(Returned(delay), LEAVE_AGAIN) == LeavingAgain(delay)
  {}

  function Journey(delay: nat): seq<MemberOp> {
    [FUNDING, ADMISSION] + [LEAVE] + [AdvanceEpoch] + [MemberOp.Withdraw("one", Late(delay))] + [BACK] + [LEAVE_AGAIN]
  }

  lemma Reached(delay: nat)
    ensures Play(Fresh(delay), Journey(delay)) == LeavingAgain(delay)
  {
    Opens(delay);
    OneLeaves(delay);
    assert Do(Leaving(delay), AdvanceEpoch) == Waiting(delay) by { hide Leaving; }
    OneIsPaidLate(delay);
    TwoComes(delay);
    TwoLeaves(delay);
    Steps(delay, [FUNDING, ADMISSION]);
  }

  lemma Steps(delay: nat, opening: seq<MemberOp>)
    requires Play(Fresh(delay), opening) == Admitted(delay) && opening == [FUNDING, ADMISSION]
    requires Do(Admitted(delay), LEAVE) == Leaving(delay) && Do(Leaving(delay), AdvanceEpoch) == Waiting(delay)
    requires Do(Waiting(delay), MemberOp.Withdraw("one", Late(delay))) == Away(delay)
    requires Do(Away(delay), BACK) == Returned(delay) && Do(Returned(delay), LEAVE_AGAIN) == LeavingAgain(delay)
    ensures Play(Fresh(delay), Journey(delay)) == LeavingAgain(delay)
  {
    var payment := MemberOp.Withdraw("one", Late(delay));
    assert Journey(delay) == opening + [LEAVE] + [AdvanceEpoch] + [payment] + [BACK] + [LEAVE_AGAIN];
    hide *;
    PlayNext(Fresh(delay), opening, LEAVE);
    PlayNext(Fresh(delay), opening + [LEAVE], AdvanceEpoch);
    PlayNext(Fresh(delay), opening + [LEAVE] + [AdvanceEpoch], payment);
    PlayNext(Fresh(delay), opening + [LEAVE] + [AdvanceEpoch] + [payment], BACK);
    PlayNext(Fresh(delay), opening + [LEAVE] + [AdvanceEpoch] + [payment] + [BACK], LEAVE_AGAIN);
  }

  lemma LeavingAgainIsClean(delay: nat)
    ensures Clean(LeavingAgain(delay).ledger)
  {}

  lemma LeavingAgainIsCoupled(delay: nat)
    ensures Coupled(LeavingAgain(delay)) && ExitsKnown(LeavingAgain(delay))
  {
    assert Backed(LeavingAgain(delay), "two");
  }

  lemma PaymentRepeats(delay: nat)
    ensures var r := LeavingAgain(delay);
            && "two" in r.records && "two" in r.bondOf && r.bondOf["two"] == "bond" && "bond" in r.ledger.bonds
            && r.records["two"].stake == 5 && r.ledger.bonds["bond"].owner == "owner" && r.ledger.BalanceOf("owner") == 15
            && WithdrawParts(r, "two", Late(delay))
  {
    assert WithdrawEvent(LeavingAgain(delay), "two", delay + 1) == Payment(delay + 1);
  }

  /** Whatever the delay, after the run the bond of "two" is paid out and "two" stays recorded with a stake of 5. */
  lemma RepeatedPaymentStrands(delay: nat)
    ensures var r := Play(Fresh(delay), Journey(delay));
            var m := r.Withdraw("two", Late(delay));
            && Coupled(r) && ExitsKnown(r) && "bond" in r.ledger.bonds && r.ledger.BalanceOf("owner") == 15
            && !m.ok && !Coupled(m.registry) && m.registry.ledger.BalanceOf("owner") == 20
            && "bond" !in m.registry.ledger.bonds
            && "two" in m.registry.records && m.registry.records["two"].stake == 5
  {
    Reached(delay);
    LeavingAgainIsClean(delay);
    LeavingAgainIsCoupled(delay);
    PaymentRepeats(delay);
    hide *;
    WithdrawExactly(LeavingAgain(delay), "two", Late(delay));
  }
}
