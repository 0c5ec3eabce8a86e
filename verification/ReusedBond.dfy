/**
 Why the withdrawal delay matters. Without one, or when the withdrawal passes a later epoch itself, a bond identifier can
 be bonded, released and bonded again within an epoch; the second exit then raises after the ledger has marked the bond,
 and the withdrawal that follows pays the bond out and is refused.
 */
module ReusedBond {
  import opened Results
  import opened Settlement
  import opened Books
  import opened Membership
  import opened MembershipRuns
  import opened FirstStay

  const LEAVE := MemberOp.Exit("one", None)
  const READMISSION := MemberOp.Admit(Request("two", 6), Some(BondOver(6)))

  /** After "one" asked to leave. */
  function Leaving(delay: nat): Registry {
    var position := BondPosition("owner", "asset", 5, delay, false, true);
    var l := Admitted(delay).ledger;
    Admitted(delay).(ledger := l.(bonds := map["bond" := position], events := l.events + {Note(UnbondRequest, 0)}),
                     records := map["one" := ValidatorRecord("key", 5, "one", false, delay, false)])
  }

  function Payment(delay: nat): SettlementEvent {
    SettlementEvent(Kind.Withdraw, delay, "owner", 5, "asset", Name("bond"))
  }

  /** After "one" was paid. */
  function Gone(delay: nat): Registry {
    var l := Leaving(delay).ledger;
    Leaving(delay).(ledger := l.(bonds := map[], balances := map["owner" := 20], events := l.events + {Payment(delay)}),
                    records := map[], bondOf := map[])
  }

  /** "two" bonded 6 under the identifier "one" had, in the same epoch. */
  function SecondStay(delay: nat): Registry {
    var l := Gone(delay).ledger;
    Gone(delay).(ledger := l.(bonds := map["bond" := Position(6)], balances := map["owner" := 14],
                              events := l.events + {Note(BondStake, 6)}),
                 records := map["two" := ValidatorRecord("key", 6, "two", true, 0, false)],
                 deposits := {"one", "two"}, bondOf := map["two" := "bond"])
  }

  lemma OneLeaves(delay: nat)
    ensures Do(Admitted(delay), LEAVE) == Leaving(delay)
  {}

  /** The withdrawal is asked for with the epoch the delay ends in. */
  lemma OneIsPaid(delay: nat)
    ensures Leaving(delay).Withdraw("one", Some(delay)).registry == Gone(delay)
    ensures delay == 0 ==> Do(Leaving(delay), MemberOp.Withdraw("one", None)) == Gone(delay)
  {
    var l := Leaving(delay).ledger;
    assert l.bonds - {"bond"} == map[];
    assert Leaving(delay).records - {"one"} == map[] && Leaving(delay).bondOf - {"one"} == map[];
  }

  lemma TwoIsAdmitted(delay: nat)
    ensures Do(Gone(delay), READMISSION) == SecondStay(delay)
  {}

  /**
   Five operations lead there from an empty manager and ledger, within epoch 0: with a delay, because the withdrawal
   passes a later epoch; without one, whatever it passes.
   */
  lemma SecondStayReached(delay: nat)
    ensures var left := Play(Fresh(delay), [FUNDING, ADMISSION, LEAVE]);
            && Do(left.Withdraw("one", Some(delay)).registry, READMISSION) == SecondStay(delay)
            && (delay == 0 ==> Do(Do(left, MemberOp.Withdraw("one", None)), READMISSION) == SecondStay(delay))
  {
    Opens(delay);
    OneLeaves(delay);
    OneIsPaid(delay);
    TwoIsAdmitted(delay);
    hide *;
    PlayNext(Fresh(delay), [FUNDING, ADMISSION], LEAVE);
    assert [FUNDING, ADMISSION] + [LEAVE] == [FUNDING, ADMISSION, LEAVE];
  }

  lemma SecondStayIsClean(delay: nat)
    ensures Clean(SecondStay(delay).ledger)
  {}

  lemma SecondStayIsCoupled(delay: nat)
    ensures Coupled(SecondStay(delay)) && ExitsKnown(SecondStay(delay))
  {
    assert Backed(SecondStay(delay), "two");
  }

  /** The exit of "two" raises and leaves its record active beside an unbonding bond. */
  lemma SecondExitLeavesRecordBehind(delay: nat)
    ensures var m := SecondStay(delay).Exit("two", None);
            && !m.ok && Coupled(m.registry) && !ExitsKnown(m.registry)
            && "two" in m.registry.records && "bond" in m.registry.ledger.bonds
            && m.registry.records["two"].active && m.registry.ledger.bonds["bond"].unbonding
  {
    SecondStayIsCoupled(delay);
    var r := SecondStay(delay);
    assert ExitEvent(r, "two") == Note(UnbondRequest, 0);
    ExitExactly(r, "two", None);
    UnbondFields(r.ledger, "bond", 0, delay);
    hide ExitsKnown, Coupled, Ledger.RequestUnbond;
  }

  /** The ledger pays the 6 out, and membership refuses the withdrawal it paid for. */
  lemma PaidWithdrawalRefused(delay: nat)
    ensures var r := SecondStay(delay).Exit("two", None).registry;
            && r.ledger.Withdraw("bond", delay).result.Ok? && !r.Withdraw("two", Some(delay)).ok
            && r.Withdraw("two", Some(delay)).registry.ledger.BalanceOf("owner") == 20
            && "two" in r.Withdraw("two", Some(delay)).registry.records
  {
    var s := SecondStay(delay);
    UnbondFields(s.ledger, "bond", 0, delay);
    var l := s.ledger.RequestUnbond("bond", 0, delay).ledger;
    assert Note(UnbondRequest, 0) in s.ledger.events;
    UnbondBooksClean(delay);
    hide Ledger.RequestUnbond;
    var r := s.Exit("two", None).registry;
    assert r.ledger == l;
    WithdrawFields(l, "bond", delay);
    assert l.NewEvent(Kind.Withdraw, delay, "owner", 6, Name("bond")) !in l.events;
    hide Ledger.Withdraw;
  }

  lemma UnbondBooksClean(delay: nat)
    ensures Clean(SecondStay(delay).ledger.RequestUnbond("bond", 0, delay).ledger)
  {
    SecondStayIsClean(delay);
    UnbondFields(SecondStay(delay).ledger, "bond", 0, delay);
    hide Ledger.RequestUnbond;
  }

  // ----- A second bonding

  /** "two" asks for what "one" had: the same bond of 5. */
  const SAME_AGAIN := MemberOp.Admit(Request("two", 5), Some(BondOver(5)))

  lemma GoneReached(delay: nat)
    ensures Play(Fresh(delay), [FUNDING, ADMISSION, LEAVE]).Withdraw("one", Some(delay)).registry == Gone(delay)
  {
    Opens(delay);
    OneLeaves(delay);
    OneIsPaid(delay);
    hide *;
    PlayNext(Fresh(delay), [FUNDING, ADMISSION], LEAVE);
    assert [FUNDING, ADMISSION] + [LEAVE] == [FUNDING, ADMISSION, LEAVE];
  }

  lemma BondingRepeats(delay: nat)
    ensures CanAdmit(Gone(delay), SAME_AGAIN.request, SAME_AGAIN.bond)
    ensures var m := Gone(delay).Admit(SAME_AGAIN.request, SAME_AGAIN.bond);
            !m.ok && Stranded(Gone(delay), m.registry, BondOver(5))
  {
    var r := Gone(delay);
    assert BondEvent(r, BondOver(5)) == Note(BondStake, 5) && Note(BondStake, 5) in r.ledger.events;
    BondOutcome(r.ledger, BondOver(5), 0);
  }

  /** Once "one" has left, the ledger bonds the 5 for "two" and raises, so the owner's money backs no validator. */
  lemma SecondBondingStrands(delay: nat)
    ensures var r := Play(Fresh(delay), [FUNDING, ADMISSION, LEAVE]).Withdraw("one", Some(delay)).registry;
            var m := r.Admit(SAME_AGAIN.request, SAME_AGAIN.bond);
            && CanAdmit(r, SAME_AGAIN.request, SAME_AGAIN.bond) && !m.ok && Stranded(r, m.registry, BondOver(5))
  {
    hide *;
    GoneReached(delay);
    BondingRepeats(delay);
  }
}
