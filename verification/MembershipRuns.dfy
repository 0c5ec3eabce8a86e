/**
 What membership and ledger keep together: stakes match bonds, exits match unbonding, and a paid withdrawal is never
 refused afterwards.
 */
module MembershipRuns {
  import opened Results
  import opened Settlement
  import opened Books
  import opened Membership

  // ----- One validator changes

  /** The validator's record and bond are replaced together. */
  lemma ReplaceBoth(r: Registry, q: Registry, v: string, record: ValidatorRecord, position: BondPosition)
    requires Coupled(r) && ExitsKnown(r) && v in r.records
    requires q.bondOf == r.bondOf && q.records == r.records[v := record]
    requires v in r.bondOf && q.ledger.bonds == r.ledger.bonds[r.bondOf[v] := position]
    requires position.amount == record.stake
    requires position.unbonding ==> !record.active && position.unlockEpoch >= record.lockedUntilEpoch
    ensures Coupled(q) && ExitsKnown(q)
  {
    forall w | w in q.records ensures Backed(q, w) && ExitKnown(q, w) {
      assert Backed(r, w) && ExitKnown(r, w);
      if w != v { assert r.bondOf[w] != r.bondOf[v]; }
    }
  }

  lemma SameBonds(r: Registry, q: Registry)
    requires Coupled(r) && ExitsKnown(r)
    requires q.bondOf == r.bondOf && q.records == r.records && q.ledger.bonds == r.ledger.bonds
    ensures Coupled(q) && ExitsKnown(q)
  {
    forall w | w in q.records ensures Backed(q, w) && ExitKnown(q, w) {
      assert Backed(r, w) && ExitKnown(r, w);
    }
  }

  /** A bond of nobody's may come or go. */
  lemma StrayBond(r: Registry, q: Registry, b: string)
    requires Coupled(r) && ExitsKnown(r)
    requires q.bondOf == r.bondOf && q.records == r.records && b !in r.bondOf.Values
    requires forall x :: x != b ==> (x in q.ledger.bonds <==> x in r.ledger.bonds)
    requires forall x :: x != b && x in r.ledger.bonds ==> q.ledger.bonds[x] == r.ledger.bonds[x]
    ensures Coupled(q) && ExitsKnown(q)
  {
    forall w | w in q.records ensures Backed(q, w) && ExitKnown(q, w) {
      assert Backed(r, w) && ExitKnown(r, w);
      assert r.bondOf[w] in r.bondOf.Values;
    }
  }

  lemma UnknownBondIsFree(r: Registry, b: string)
    requires Coupled(r) && b !in r.ledger.bonds
    ensures b !in r.bondOf.Values
  {
    hide Coupled;
    if b in r.bondOf.Values { UsedBondIsKnown(r, b); }
  }

  lemma UsedBondIsKnown(r: Registry, b: string)
    requires Coupled(r) && b in r.bondOf.Values
    ensures b in r.ledger.bonds
  {
    hide Coupled;
    var v :| v in r.bondOf && r.bondOf[v] == b;
    assert v in r.records by { SameKeys(r); }
    BackedBond(r, v);
  }

  lemma SameKeys(r: Registry)
    requires Coupled(r)
    ensures r.bondOf.Keys == r.records.Keys
  {}

  lemma BackedBond(r: Registry, v: string)
    requires Coupled(r) && v in r.records
    ensures v in r.bondOf && r.bondOf[v] in r.ledger.bonds
    ensures r.ledger.bonds[r.bondOf[v]].amount == r.records[v].stake
  {
    assert Backed(r, v);
  }

  // ----- Admission

  lemma BondFields(l: Ledger, bond: StakeBond, epoch: int)
    ensures var q := l.Bond(bond, epoch); var b := bond.statement;
            && (q.ledger.bonds == l.bonds
                || (b.bondId !in l.bonds
                    && q.ledger.bonds == l.bonds[b.bondId := BondPosition(b.owner, b.asset, b.amount, b.unlockEpoch, true, false)]))
            && (q.result.Ok? ==> q.ledger.bonds != l.bonds)
            && q.ledger.events <= l.events + {l.NewEvent(BondStake, epoch, b.owner, b.amount, Name(b.bondId))}
  {}

  lemma NewValidator(r: Registry, q: Registry, v: string, record: ValidatorRecord, b: string, position: BondPosition)
    requires Coupled(r) && ExitsKnown(r) && v !in r.records && b !in r.ledger.bonds
    requires q.bondOf == r.bondOf[v := b] && q.records == r.records[v := record]
    requires q.ledger.bonds == r.ledger.bonds[b := position]
    requires position.amount == record.stake && !position.unbonding
    ensures Coupled(q) && ExitsKnown(q)
  {
    UnknownBondIsFree(r, b);
    forall w | w in q.records ensures Backed(q, w) && ExitKnown(q, w) {
      if w != v { assert Backed(r, w) && ExitKnown(r, w) && r.bondOf[w] in r.bondOf.Values; }
    }
    assert Unshared(q.bondOf) by {
      forall x, y | x in q.bondOf && y in q.bondOf && q.bondOf[x] == q.bondOf[y] ensures x == y {
        if x != v { assert r.bondOf[x] in r.bondOf.Values; }
        if y != v { assert r.bondOf[y] in r.bondOf.Values; }
      }
    }
  }

  /** Bonds are the same but for one, and no earlier event of that one can clash. */
  lemma SpreadKept(r: Registry, q: Registry, e: SettlementEvent)
    requires q.withdrawalDelay == r.withdrawalDelay
    requires q.ledger.events <= r.ledger.events + {e} && Spread(q, e)
    requires forall f :: f in r.ledger.events && Spread(r, f) ==> Spread(q, f)
    ensures StaysTimely(r, q)
  {
    hide Spread;
  }

  lemma OtherKind(r: Registry, e: SettlementEvent)
    requires !(e.kind in {UnbondRequest, Kind.Withdraw})
    ensures Spread(r, e)
  {}

  lemma AdmitKeeps(r: Registry, request: AdmissionRequest, bond: Option<StakeBond>)
    requires Orderly(r)
    ensures Orderly(r.Admit(request, bond).registry) && StaysTimely(r, r.Admit(request, bond).registry)
  {
    hide Sound, Coupled, ExitsKnown, Timely, Spread, Ledger.Bond;
    if !r.AdmissionRefused(request, bond) {
      var b := bond.value.statement;
      var e := r.ledger.NewEvent(BondStake, r.epoch, b.owner, b.amount, Name(b.bondId));
      BondBooks(r.ledger, bond.value, r.epoch);
      BondFields(r.ledger, bond.value, r.epoch);
      var q := r.Admit(request, bond).registry;
      AdmitCoupled(r, request, bond);
      OtherKind(q, e);
      AdmitSpread(r, q, b.bondId);
      SpreadKept(r, q, e);
    }
  }

  lemma AdmitSpread(r: Registry, q: Registry, b: string)
    requires q.epoch == r.epoch
    requires q.ledger.bonds == r.ledger.bonds
             || (b !in r.ledger.bonds && b in q.ledger.bonds && !q.ledger.bonds[b].unbonding
                 && q.ledger.bonds == r.ledger.bonds[b := q.ledger.bonds[b]])
    ensures forall f :: f in r.ledger.events && Spread(r, f) ==> Spread(q, f)
  {}

  lemma AdmitCoupled(r: Registry, request: AdmissionRequest, bond: Option<StakeBond>)
    requires Coupled(r) && ExitsKnown(r) && !r.AdmissionRefused(request, bond)
    ensures var q := r.Admit(request, bond).registry; Coupled(q) && ExitsKnown(q)
  {
    hide Coupled, ExitsKnown, Ledger.Bond;
    var b := bond.value.statement;
    BondFields(r.ledger, bond.value, r.epoch);
    var m := r.Admit(request, bond);
    var position := BondPosition(b.owner, b.asset, b.amount, b.unlockEpoch, true, false);
    if m.ok {
      var s := request.statement;
      NewValidator(r, m.registry, s.validatorId, m.registry.records[s.validatorId], b.bondId, position);
    } else if m.registry.ledger.bonds == r.ledger.bonds {
      SameBonds(r, m.registry);
    } else {
      UnknownBondIsFree(r, b.bondId);
      StrayBond(r, m.registry, b.bondId);
    }
  }

  /** What membership and ledger ask of an admission before anything changes. */
  predicate CanAdmit(r: Registry, request: AdmissionRequest, bond: Option<StakeBond>) {
    && !r.AdmissionRefused(request, bond)
    && bond.value.statement.asset == r.ledger.asset && bond.value.statement.bondId !in r.ledger.bonds
    && r.ledger.BalanceOf(bond.value.statement.owner) >= bond.value.statement.amount
  }

  function BondEvent(r: Registry, bond: StakeBond): SettlementEvent {
    r.ledger.NewEvent(BondStake, r.epoch, bond.statement.owner, bond.statement.amount, Name(bond.statement.bondId))
  }

  /** The owner's money sits in a bond that no validator has. */
  predicate Stranded(r: Registry, q: Registry, bond: StakeBond) {
    && bond.statement.bondId in q.ledger.bonds && bond.statement.bondId !in q.bondOf.Values
    && q.ledger.bonds[bond.statement.bondId].amount == bond.statement.amount
    && q.ledger.BalanceOf(bond.statement.owner) == r.ledger.BalanceOf(bond.statement.owner) - bond.statement.amount
    && q.records == r.records && q.bondOf == r.bondOf
  }

  /**
   An admission that passes every check returns exactly when this epoch holds no equal bonding of the same identifier:
   with one, the ledger bonds and then raises, and the owner's money is stranded.
   */
  lemma AdmitExactly(r: Registry, request: AdmissionRequest, bond: Option<StakeBond>)
    requires Orderly(r)
    ensures var m := r.Admit(request, bond);
            && Orderly(m.registry)
            && (m.ok <==> CanAdmit(r, request, bond) && BondEvent(r, bond.value) !in r.ledger.events)
            && (m.ok ==> request.statement.validatorId in m.registry.records)
            && (m.registry == r <==> !CanAdmit(r, request, bond))
            && (CanAdmit(r, request, bond) && !m.ok ==> Stranded(r, m.registry, bond.value))
  {
    hide Coupled, ExitsKnown, AllRemembered, Clean;
    AdmitKeeps(r, request, bond);
    if !r.AdmissionRefused(request, bond) {
      hide Registry.AdmissionRefused, Orderly;
      BondOutcome(r.ledger, bond.value, r.epoch);
      if CanAdmit(r, request, bond) {
        assert Coupled(r) by { OrderlyParts(r); }
        UnknownBondIsFree(r, bond.value.statement.bondId);
      }
    }
  }

  lemma OrderlyParts(r: Registry)
    requires Orderly(r)
    ensures Sound(r.ledger) && Coupled(r) && ExitsKnown(r)
  {
    hide Sound, Coupled, ExitsKnown;
  }

  lemma BondOutcome(l: Ledger, bond: StakeBond, epoch: int)
    requires bond.Verify() && bond.statement.activationEpoch <= epoch
    ensures var q := l.Bond(bond, epoch); var b := bond.statement;
            if b.asset != l.asset || b.bondId in l.bonds || l.BalanceOf(b.owner) < b.amount
            then q.ledger == l && q.result.Err?
            else
              var e := l.NewEvent(BondStake, epoch, b.owner, b.amount, Name(b.bondId));
              && q.ledger.bonds == l.bonds[b.bondId := BondPosition(b.owner, b.asset, b.amount, b.unlockEpoch, true, false)]
              && q.ledger.BalanceOf(b.owner) == l.BalanceOf(b.owner) - b.amount
              && (q.result.Ok? <==> e !in l.events)
  {}

  // ----- Exit

  lemma UnbondFields(l: Ledger, b: string, epoch: int, delay: int)
    ensures var q := l.RequestUnbond(b, epoch, delay);
            var request := b in l.bonds && delay >= 0 && l.bonds[b].active && !l.bonds[b].unbonding;
            if !request then q.result.Err? && q.ledger == l
            else
              var e := l.NewEvent(UnbondRequest, epoch, l.bonds[b].owner, 0, Name(b));
              && (q.result.Ok? <==> e !in l.events)
              && q.ledger == l.(events := l.events + {e},
                                bonds := l.bonds[b := l.bonds[b].(unlockEpoch := Max(l.bonds[b].unlockEpoch, epoch + delay),
                                                                  active := false, unbonding := true)])
  {
    if b in l.bonds && delay >= 0 && l.bonds[b].active && !l.bonds[b].unbonding {
      var e := l.NewEvent(UnbondRequest, epoch, l.bonds[b].owner, 0, Name(b));
      if e in l.events { assert l.events + {e} == l.events; }
    }
  }

  predicate CanUnbond(r: Registry, v: string, atEpoch: Option<int>) {
    && v in r.records && (atEpoch.None? || atEpoch.value >= r.epoch) && v in r.bondOf
    && r.bondOf[v] in r.ledger.bonds && r.withdrawalDelay >= 0
    && r.ledger.bonds[r.bondOf[v]].active && !r.ledger.bonds[r.bondOf[v]].unbonding
  }

  function ExitEvent(r: Registry, v: string): SettlementEvent
    requires v in r.bondOf && r.bondOf[v] in r.ledger.bonds
  {
    r.ledger.NewEvent(UnbondRequest, r.epoch, r.ledger.bonds[r.bondOf[v]].owner, 0, Name(r.bondOf[v]))
  }

  function UnbondedAt(r: Registry, v: string): int
    requires v in r.bondOf && r.bondOf[v] in r.ledger.bonds
  {
    Max(r.ledger.bonds[r.bondOf[v]].unlockEpoch, r.epoch + r.withdrawalDelay)
  }

  /** The record is not one an unbonding bond may have. */
  predicate Lagging(r: Registry, v: string)
    requires v in r.records && v in r.bondOf && r.bondOf[v] in r.ledger.bonds
  {
    r.records[v].active || UnbondedAt(r, v) < r.records[v].lockedUntilEpoch
  }

  lemma NoExit(r: Registry, v: string, atEpoch: Option<int>)
    requires Coupled(r) && !CanUnbond(r, v, atEpoch)
    ensures r.Exit(v, atEpoch) == Moved(r, false)
  {
    if v in r.records && (atEpoch.None? || atEpoch.value >= r.epoch) && v in r.bondOf {
      UnbondFields(r.ledger, r.bondOf[v], r.epoch, r.withdrawalDelay);
    }
    hide Coupled, Ledger.RequestUnbond;
  }

  lemma UnbondKeepsAmounts(r: Registry, q: Registry, v: string)
    requires Coupled(r) && ExitsKnown(r) && v in r.records && v in r.bondOf && r.bondOf[v] in r.ledger.bonds
    requires q.bondOf == r.bondOf && q.records == r.records
    requires var p := r.ledger.bonds[r.bondOf[v]];
             q.ledger.bonds == r.ledger.bonds[r.bondOf[v] := p.(unlockEpoch := UnbondedAt(r, v), active := false, unbonding := true)]
    ensures Coupled(q) && (ExitsKnown(q) <==> !Lagging(r, v))
  {
    forall w | w in q.records ensures Backed(q, w) && (w != v ==> ExitKnown(q, w)) {
      assert Backed(r, w) && ExitKnown(r, w);
      if w != v { assert r.bondOf[w] != r.bondOf[v]; }
    }
    assert ExitKnown(q, v) <==> !Lagging(r, v);
  }

  /** The ledger would mark the bond and then raise on a request this epoch already holds, leaving the record behind. */
  predicate ExitParts(r: Registry, v: string, atEpoch: Option<int>) {
    CanUnbond(r, v, atEpoch) && Lagging(r, v) && ExitEvent(r, v) in r.ledger.events
  }

  /**
   A validator's exit and its bond's stay in step exactly when this epoch holds no earlier unbonding request of the
   same bond: with one, the ledger marks the bond and then raises, and the record is left behind as it was.
   */
  lemma ExitExactly(r: Registry, v: string, atEpoch: Option<int>)
    requires Coupled(r) && ExitsKnown(r)
    ensures var m := r.Exit(v, atEpoch);
            && Coupled(m.registry)
            && (ExitsKnown(m.registry) <==> !ExitParts(r, v, atEpoch))
            && (m.ok <==> CanUnbond(r, v, atEpoch) && ExitEvent(r, v) !in r.ledger.events)
  {
    hide Coupled, ExitsKnown, Ledger.RequestUnbond;
    if CanUnbond(r, v, atEpoch) {
      UnbondFields(r.ledger, r.bondOf[v], r.epoch, r.withdrawalDelay);
      var m := r.Exit(v, atEpoch);
      var b := r.bondOf[v];
      if ExitEvent(r, v) in r.ledger.events {
        UnbondKeepsAmounts(r, m.registry, v);
      } else {
        BackedBond(r, v);
        ReplaceBoth(r, m.registry, v, m.registry.records[v], m.registry.ledger.bonds[b]);
      }
    } else {
      NoExit(r, v, atEpoch);
    }
  }

  /** With a withdrawal delay, no second unbonding request of a bond falls into one epoch. */
  lemma NoSecondRequest(r: Registry, v: string, atEpoch: Option<int>)
    requires Timely(r) && CanUnbond(r, v, atEpoch)
    ensures ExitEvent(r, v) !in r.ledger.events
  {
    hide AllSpread, Spread;
    if ExitEvent(r, v) in r.ledger.events { RequestSpread(r, ExitEvent(r, v)); }
  }

  lemma RequestSpread(r: Registry, e: SettlementEvent)
    requires AllSpread(r) && e in r.ledger.events && e.kind == UnbondRequest && e.relatedId.Name? && e.epoch == r.epoch
    ensures e.relatedId.text in r.ledger.bonds && r.ledger.bonds[e.relatedId.text].unbonding
  {
    assert Spread(r, e);
  }

  lemma ExitKeeps(r: Registry, v: string, atEpoch: Option<int>)
    requires Orderly(r)
    ensures var q := r.Exit(v, atEpoch).registry;
            Sound(q.ledger) && (Orderly(q) <==> !ExitParts(r, v, atEpoch)) && StaysTimely(r, q)
  {
    hide Sound, Coupled, ExitsKnown, Ledger.RequestUnbond, ExitParts, StaysTimely;
    ExitExactly(r, v, atEpoch);
    if CanUnbond(r, v, atEpoch) {
      UnbondBooks(r.ledger, r.bondOf[v], r.epoch, r.withdrawalDelay);
      ExitStaysTimely(r, v, atEpoch);
    } else {
      NoExit(r, v, atEpoch);
      SameStaysTimely(r);
    }
  }

  lemma SameStaysTimely(r: Registry)
    ensures StaysTimely(r, r)
  {}

  lemma ExitStaysTimely(r: Registry, v: string, atEpoch: Option<int>)
    requires CanUnbond(r, v, atEpoch)
    ensures StaysTimely(r, r.Exit(v, atEpoch).registry)
  {
    if Timely(r) {
      assert r.withdrawalDelay >= 1;
      hide Timely, Spread, Ledger.RequestUnbond;
      UnbondFields(r.ledger, r.bondOf[v], r.epoch, r.withdrawalDelay);
      NoSecondRequest(r, v, atEpoch);
      var q := r.Exit(v, atEpoch).registry;
      ExitSpread(r, q, r.bondOf[v]);
      ExitEventSpread(r, q, v);
      SpreadKept(r, q, ExitEvent(r, v));
    }
  }

  lemma ExitSpread(r: Registry, q: Registry, b: string)
    requires q.epoch == r.epoch && r.withdrawalDelay >= 1 && b in r.ledger.bonds && !r.ledger.bonds[b].unbonding
    requires b in q.ledger.bonds && q.ledger.bonds == r.ledger.bonds[b := q.ledger.bonds[b]]
    requires q.ledger.bonds[b].unbonding && q.ledger.bonds[b].unlockEpoch >= r.epoch + r.withdrawalDelay
    ensures forall f :: f in r.ledger.events && Spread(r, f) ==> Spread(q, f)
  {}

  lemma ExitEventSpread(r: Registry, q: Registry, v: string)
    requires v in r.bondOf && r.bondOf[v] in r.ledger.bonds && q.epoch == r.epoch && r.withdrawalDelay >= 1
    requires r.bondOf[v] in q.ledger.bonds && q.ledger.bonds[r.bondOf[v]].unbonding
    requires q.ledger.bonds[r.bondOf[v]].unlockEpoch >= r.epoch + r.withdrawalDelay
    ensures Spread(q, ExitEvent(r, v))
  {}

  // ----- Withdrawal

  predicate CanWithdraw(l: Ledger, b: string, now: int) {
    b in l.bonds && !l.bonds[b].active && l.bonds[b].unbonding && now >= l.bonds[b].unlockEpoch
  }

  lemma WithdrawFields(l: Ledger, b: string, now: int)
    requires Clean(l)
    ensures var q := l.Withdraw(b, now);
            if !CanWithdraw(l, b, now) then q.result.Err? && q.ledger == l
            else
              var e := l.NewEvent(Kind.Withdraw, now, l.bonds[b].owner, l.bonds[b].amount, Name(b));
              && (q.result.Ok? <==> e !in l.events)
              && q.ledger.bonds == l.bonds - {b} && q.ledger.events == l.events + {e}
              && q.ledger.BalanceOf(l.bonds[b].owner) == l.BalanceOf(l.bonds[b].owner) + l.bonds[b].amount
  {
    if CanWithdraw(l, b, now) {
      BondOf(l, b);
      var e := l.NewEvent(Kind.Withdraw, now, l.bonds[b].owner, l.bonds[b].amount, Name(b));
      if e in l.events { assert l.events + {e} == l.events; }
    }
  }

  lemma Departure(r: Registry, q: Registry, v: string)
    requires Coupled(r) && ExitsKnown(r) && v in r.records && v in r.bondOf
    requires q.records == r.records - {v} && q.bondOf == r.bondOf - {v}
    requires q.ledger.bonds == r.ledger.bonds - {r.bondOf[v]}
    ensures Coupled(q) && ExitsKnown(q)
  {
    forall w | w in q.records ensures Backed(q, w) && ExitKnown(q, w) {
      assert Backed(r, w) && ExitKnown(r, w) && r.bondOf[w] != r.bondOf[v];
    }
  }

  function WithdrawEvent(r: Registry, v: string, now: int): SettlementEvent
    requires v in r.bondOf && r.bondOf[v] in r.ledger.bonds
  {
    var p := r.ledger.bonds[r.bondOf[v]];
    r.ledger.NewEvent(Kind.Withdraw, now, p.owner, p.amount, Name(r.bondOf[v]))
  }

  function Now(r: Registry, atEpoch: Option<int>): int { if atEpoch.Some? then atEpoch.value else r.epoch }

  /**
   Once the ledger's half of a withdrawal has returned, the membership half does not refuse it: the record is inactive
   and its lock is over. What the ledger paid is the recorded stake.
   */
  lemma PaidWithdrawalGoesThrough(r: Registry, v: string, atEpoch: Option<int>)
    requires Clean(r.ledger) && Coupled(r) && ExitsKnown(r) && v in r.records && v in r.bondOf
    requires r.ledger.Withdraw(r.bondOf[v], Now(r, atEpoch)).result.Ok?
    ensures r.bondOf[v] in r.ledger.bonds
    ensures var m := r.Withdraw(v, atEpoch);
            var owner := r.ledger.bonds[r.bondOf[v]].owner;
            && m.ok && Coupled(m.registry) && ExitsKnown(m.registry) && v !in m.registry.records
            && m.registry.ledger.BalanceOf(owner) == r.ledger.BalanceOf(owner) + r.records[v].stake
  {
    assert Backed(r, v) && ExitKnown(r, v);
    WithdrawFields(r.ledger, r.bondOf[v], Now(r, atEpoch));
    hide Coupled, ExitsKnown, Ledger.Withdraw, Clean;
    Departure(r, r.Withdraw(v, atEpoch).registry, v);
  }

  predicate WithdrawalDue(r: Registry, v: string, atEpoch: Option<int>) {
    v in r.records && v in r.bondOf && CanWithdraw(r.ledger, r.bondOf[v], Now(r, atEpoch))
  }

  /** The ledger would pay the bond out and then raise on a payment it already holds, leaving the record behind. */
  predicate WithdrawParts(r: Registry, v: string, atEpoch: Option<int>) {
    WithdrawalDue(r, v, atEpoch) && WithdrawEvent(r, v, Now(r, atEpoch)) in r.ledger.events
  }

  lemma NoWithdrawal(r: Registry, v: string, atEpoch: Option<int>)
    requires Clean(r.ledger) && !WithdrawalDue(r, v, atEpoch)
    ensures r.Withdraw(v, atEpoch) == Moved(r, false)
  {
    if v in r.records && v in r.bondOf { WithdrawFields(r.ledger, r.bondOf[v], Now(r, atEpoch)); }
    hide Clean, Ledger.Withdraw;
  }

  lemma LostBond(r: Registry, q: Registry, v: string)
    requires v in q.records && v in q.bondOf && q.bondOf[v] !in q.ledger.bonds
    ensures !Coupled(q)
  {
    assert !Backed(q, v);
  }

  /**
   Whatever the delay and whatever epoch a withdrawal passes, it parts stakes from bonds exactly when the ledger holds
   an equal payment of the same bond at that epoch: the bond is paid out and gone, and the validator stays recorded
   with its stake. Otherwise a due withdrawal returns, and one that is not due changes nothing.
   */
  lemma WithdrawExactly(r: Registry, v: string, atEpoch: Option<int>)
    requires Clean(r.ledger) && Coupled(r) && ExitsKnown(r)
    ensures var m := r.Withdraw(v, atEpoch);
            && (Coupled(m.registry) <==> !WithdrawParts(r, v, atEpoch))
            && (Coupled(m.registry) ==> ExitsKnown(m.registry))
            && (m.ok <==> WithdrawalDue(r, v, atEpoch) && !WithdrawParts(r, v, atEpoch))
            && (!WithdrawalDue(r, v, atEpoch) ==> m.registry == r)
            && (WithdrawParts(r, v, atEpoch) ==>
                  && m.registry.records == r.records && r.bondOf[v] !in m.registry.ledger.bonds
                  && var owner := r.ledger.bonds[r.bondOf[v]].owner;
                  m.registry.ledger.BalanceOf(owner) == r.ledger.BalanceOf(owner) + r.records[v].stake)
  {
    hide Clean, Coupled, ExitsKnown, Ledger.Withdraw;
    if !WithdrawalDue(r, v, atEpoch) {
      NoWithdrawal(r, v, atEpoch);
    } else {
      BackedBond(r, v);
      WithdrawFields(r.ledger, r.bondOf[v], Now(r, atEpoch));
      if WithdrawParts(r, v, atEpoch) {
        LostBond(r, r.Withdraw(v, atEpoch).registry, v);
      } else {
        PaidWithdrawalGoesThrough(r, v, atEpoch);
      }
    }
  }

  /** The withdrawal passes no epoch beyond the manager's own. */
  predicate Punctual(r: Registry, atEpoch: Option<int>) { Now(r, atEpoch) <= r.epoch }

  predicate Passed(r: Registry, b: string, f: SettlementEvent) {
    f.kind == UnbondRequest && f.relatedId == Name(b) ==> f.epoch < r.epoch
  }

  lemma WithdrawSpread(r: Registry, q: Registry, b: string)
    requires q.epoch == r.epoch && q.ledger.bonds == r.ledger.bonds - {b}
    ensures forall f :: f in r.ledger.events && Spread(r, f) && Passed(r, b, f) ==> Spread(q, f)
  {}

  lemma NoSecondWithdrawal(r: Registry, v: string, now: int)
    requires Timely(r) && v in r.bondOf && CanWithdraw(r.ledger, r.bondOf[v], now)
    ensures WithdrawEvent(r, v, now) !in r.ledger.events
  {
    hide AllSpread, Spread;
    var e := WithdrawEvent(r, v, now);
    if e in r.ledger.events { WithdrawalSpread(r, e); }
  }

  lemma WithdrawalSpread(r: Registry, e: SettlementEvent)
    requires AllSpread(r) && e in r.ledger.events && e.kind == Kind.Withdraw && e.relatedId.Name?
    requires e.relatedId.text in r.ledger.bonds && r.ledger.bonds[e.relatedId.text].unbonding
    ensures r.ledger.bonds[e.relatedId.text].unlockEpoch > e.epoch
  {
    assert Spread(r, e);
  }

  lemma WithdrawKeeps(r: Registry, v: string, atEpoch: Option<int>)
    requires Orderly(r)
    ensures var q := r.Withdraw(v, atEpoch).registry;
            && Sound(q.ledger) && (Orderly(q) <==> !WithdrawParts(r, v, atEpoch))
            && (Punctual(r, atEpoch) ==> StaysTimely(r, q))
  {
    assert Clean(r.ledger) by { hide Clean, AllRemembered, Coupled, ExitsKnown; }
    hide Sound, Clean, Coupled, ExitsKnown, Ledger.Withdraw, WithdrawParts, StaysTimely;
    WithdrawExactly(r, v, atEpoch);
    if WithdrawalDue(r, v, atEpoch) {
      WithdrawBooks(r.ledger, r.bondOf[v], Now(r, atEpoch));
      if Punctual(r, atEpoch) { WithdrawStaysTimely(r, v, atEpoch); }
    } else {
      SameStaysTimely(r);
    }
  }

  lemma WithdrawStaysTimely(r: Registry, v: string, atEpoch: Option<int>)
    requires Clean(r.ledger) && WithdrawalDue(r, v, atEpoch) && Punctual(r, atEpoch)
    ensures StaysTimely(r, r.Withdraw(v, atEpoch).registry)
  {
    hide Clean, Ledger.Withdraw, Spread, Passed;
    if Timely(r) {
      WithdrawFields(r.ledger, r.bondOf[v], Now(r, atEpoch));
      var q := r.Withdraw(v, atEpoch).registry;
      WithdrawnSpread(r, q, v, Now(r, atEpoch));
      RequestsPassed(r, r.bondOf[v], Now(r, atEpoch));
      WithdrawSpread(r, q, r.bondOf[v]);
      hide Timely;
      SpreadKept(r, q, WithdrawEvent(r, v, Now(r, atEpoch)));
    }
  }

  /** The requests of a bond that is due are of earlier epochs. */
  lemma RequestsPassed(r: Registry, b: string, now: int)
    requires AllSpread(r) && CanWithdraw(r.ledger, b, now) && now <= r.epoch
    ensures forall f :: f in r.ledger.events ==> Passed(r, b, f)
  {
    forall f | f in r.ledger.events ensures Passed(r, b, f) { assert Spread(r, f); }
  }

  lemma WithdrawnSpread(r: Registry, q: Registry, v: string, now: int)
    requires v in r.bondOf && r.bondOf[v] in r.ledger.bonds && q.epoch == r.epoch && r.bondOf[v] !in q.ledger.bonds
    requires now <= r.epoch
    ensures Spread(q, WithdrawEvent(r, v, now))
  {}

  // ----- Slashing

  function DockedPosition(p: BondPosition, amount: int): BondPosition {
    p.(amount := p.amount - Min(amount, p.amount), active := p.active && p.amount > Min(amount, p.amount))
  }

  lemma SlashFields(l: Ledger, b: string, amount: int, epoch: int, evidenceId: Id)
    requires Sound(l)
    ensures var q := l.Slash(b, amount, epoch, evidenceId, None);
            if !SlashPasses(l, b, amount, evidenceId) then q.result.Err? && q.ledger == l
            else
              var penalty := Min(amount, l.bonds[b].amount);
              var e := l.NewEvent(Kind.Slash, epoch, l.bonds[b].owner, penalty, evidenceId);
              && q.result == Ok([e]) && e !in l.events
              && q.ledger == l.(bonds := l.bonds[b := DockedPosition(l.bonds[b], amount)], events := l.events + {e},
                                slashEvidenceIds := l.slashEvidenceIds + {evidenceId},
                                balances := l.balances[l.treasury := l.BalanceOf(l.treasury) + penalty])
  {
    SlashExactly(l, b, amount, epoch, evidenceId, None);
    if SlashPasses(l, b, amount, evidenceId) {
      FreshEvidence(l, Kind.Slash, epoch, l.bonds[b].owner, Min(amount, l.bonds[b].amount), evidenceId);
    }
    hide AllRemembered, Clean;
  }

  function SlashAmount(r: Registry, evidence: SlashEvidence, penalty: Option<int>): int
    requires evidence.offenderId in r.records
  {
    if penalty.Some? then penalty.value else r.records[evidence.offenderId].stake
  }

  /** The ledger takes the slash. */
  predicate SlashReaches(r: Registry, evidence: SlashEvidence, penalty: Option<int>) {
    && evidence.Verify() && evidence.evidenceId !in r.slashHistory
    && evidence.offenderId in r.records && evidence.offenderId in r.bondOf
    && SlashPasses(r.ledger, r.bondOf[evidence.offenderId], SlashAmount(r, evidence, penalty), evidence.evidenceId)
  }

  /** The slash makes an exited validator active again. */
  predicate Revives(r: Registry, evidence: SlashEvidence, penalty: Option<int>) {
    && SlashReaches(r, evidence, penalty)
    && r.ledger.bonds[r.bondOf[evidence.offenderId]].unbonding
    && r.records[evidence.offenderId].stake > SlashAmount(r, evidence, penalty)
    && !r.records[evidence.offenderId].jailed
  }

  /**
   Stake and bond stay equal exactly unless the ledger takes a slash on evidence from a future epoch, which membership
   then refuses; and exits stay known exactly unless an exited validator is slashed without losing everything.
   */
  lemma MembershipSlashExactly(r: Registry, evidence: SlashEvidence, penalty: Option<int>)
    requires Sound(r.ledger) && Coupled(r) && ExitsKnown(r)
    ensures var q := r.Slash(evidence, penalty).registry;
            && (Coupled(q) <==> !(SlashReaches(r, evidence, penalty) && evidence.epoch > r.epoch
                                  && r.records[evidence.offenderId].stake > 0))
            && (evidence.epoch <= r.epoch ==> (ExitsKnown(q) <==> !Revives(r, evidence, penalty)))
  {
    hide Sound, Coupled, ExitsKnown, Ledger.Slash, SlashPasses, Lagging;
    var v := evidence.offenderId;
    if v in r.records && v in r.bondOf {
      SlashFields(r.ledger, r.bondOf[v], SlashAmount(r, evidence, penalty), evidence.epoch, evidence.evidenceId);
    }
    var q := r.Slash(evidence, penalty).registry;
    if !SlashReaches(r, evidence, penalty) {
      UntouchedSlash(r, evidence, penalty);
    } else if evidence.epoch > r.epoch {
      StakeNonNegative(r, v);
      PassedAmount(r, evidence, penalty);
      OneSided(r, q, v, SlashAmount(r, evidence, penalty));
    } else {
      StakeNonNegative(r, v);
      PassedAmount(r, evidence, penalty);
      BothSlashed(r, q, v, SlashAmount(r, evidence, penalty));
    }
  }

  lemma StakeNonNegative(r: Registry, v: string)
    requires Sound(r.ledger) && Coupled(r) && v in r.records
    ensures r.records[v].stake >= 0
  {
    hide Coupled, AllRemembered;
    BackedBond(r, v);
    BondOf(r.ledger, r.bondOf[v]);
  }

  lemma PassedAmount(r: Registry, evidence: SlashEvidence, penalty: Option<int>)
    requires SlashReaches(r, evidence, penalty)
    ensures SlashAmount(r, evidence, penalty) > 0 && r.bondOf[evidence.offenderId] in r.ledger.bonds
  {}

  lemma UntouchedSlash(r: Registry, evidence: SlashEvidence, penalty: Option<int>)
    requires Sound(r.ledger) && Coupled(r) && !SlashReaches(r, evidence, penalty)
    ensures r.Slash(evidence, penalty) == Moved(r, false)
  {
    hide Sound, Coupled, Ledger.Slash, SlashPasses;
    var v := evidence.offenderId;
    if v in r.records && v in r.bondOf {
      SlashFields(r.ledger, r.bondOf[v], SlashAmount(r, evidence, penalty), evidence.epoch, evidence.evidenceId);
    }
  }

  lemma OneSided(r: Registry, q: Registry, v: string, amount: int)
    requires Coupled(r) && v in r.records && v in r.bondOf && r.bondOf[v] in r.ledger.bonds && amount > 0
    requires q.bondOf == r.bondOf && q.records == r.records && r.records[v].stake >= 0
    requires q.ledger.bonds == r.ledger.bonds[r.bondOf[v] := DockedPosition(r.ledger.bonds[r.bondOf[v]], amount)]
    ensures Coupled(q) <==> r.records[v].stake == 0
  {
    assert Backed(r, v);
    assert Backed(q, v) <==> r.records[v].stake == 0;
    if r.records[v].stake == 0 {
      forall w | w in q.records ensures Backed(q, w) { assert Backed(r, w); }
    }
  }

  lemma BothSlashed(r: Registry, q: Registry, v: string, amount: int)
    requires Coupled(r) && ExitsKnown(r) && v in r.records && v in r.bondOf && r.bondOf[v] in r.ledger.bonds && amount > 0
    requires r.records[v].stake >= 0 && q.bondOf == r.bondOf
    requires q.ledger.bonds == r.ledger.bonds[r.bondOf[v] := DockedPosition(r.ledger.bonds[r.bondOf[v]], amount)]
    requires var stake := Max(0, r.records[v].stake - amount);
             q.records == r.records[v := r.records[v].(stake := stake, active := stake > 0 && !r.records[v].jailed,
                                                       jailed := stake == 0 || r.records[v].jailed)]
    ensures Coupled(q)
    ensures ExitsKnown(q) <==>
            !(r.ledger.bonds[r.bondOf[v]].unbonding && r.records[v].stake > amount && !r.records[v].jailed)
  {
    forall w | w in q.records ensures Backed(q, w) && (w != v ==> ExitKnown(q, w)) {
      assert Backed(r, w) && ExitKnown(r, w);
      if w != v { assert r.bondOf[w] != r.bondOf[v]; }
    }
    assert ExitKnown(q, v) <==>
           !(r.ledger.bonds[r.bondOf[v]].unbonding && r.records[v].stake > amount && !r.records[v].jailed);
  }

  lemma SlashSpread(r: Registry, q: Registry, b: string, amount: int)
    requires q.epoch == r.epoch && b in r.ledger.bonds
    requires q.ledger.bonds == r.ledger.bonds[b := DockedPosition(r.ledger.bonds[b], amount)]
    ensures forall f :: f in r.ledger.events && Spread(r, f) ==> Spread(q, f)
  {}

  /** The ledger would settle evidence that membership then refuses, or an exited validator would be active again. */
  predicate SlashParts(r: Registry, evidence: SlashEvidence, penalty: Option<int>) {
    || (SlashReaches(r, evidence, penalty) && evidence.epoch > r.epoch && r.records[evidence.offenderId].stake > 0)
    || Revives(r, evidence, penalty)
  }

  /** Early evidence against a validator without any stake changes nothing that exits depend on. */
  lemma EarlyWithoutStake(r: Registry, evidence: SlashEvidence, penalty: Option<int>)
    requires Orderly(r) && evidence.epoch > r.epoch && !SlashParts(r, evidence, penalty)
    ensures ExitsKnown(r.Slash(evidence, penalty).registry)
  {
    hide Sound, Ledger.Slash, SlashPasses;
    MembershipSlashExactly(r, evidence, penalty);
    if SlashReaches(r, evidence, penalty) {
      var b, amount := r.bondOf[evidence.offenderId], SlashAmount(r, evidence, penalty);
      PassedAmount(r, evidence, penalty);
      SlashFields(r.ledger, b, amount, evidence.epoch, evidence.evidenceId);
      var q := r.Slash(evidence, penalty).registry;
      forall w | w in q.records ensures ExitKnown(q, w) { assert ExitKnown(r, w); }
    } else {
      UntouchedSlash(r, evidence, penalty);
    }
  }

  lemma SlashKeeps(r: Registry, evidence: SlashEvidence, penalty: Option<int>)
    requires Orderly(r)
    ensures var q := r.Slash(evidence, penalty).registry;
            Sound(q.ledger) && (Orderly(q) <==> !SlashParts(r, evidence, penalty)) && StaysTimely(r, q)
  {
    OrderlyParts(r);
    SlashTimes(r, evidence, penalty);
    MembershipSlashExactly(r, evidence, penalty);
    if evidence.epoch > r.epoch && !SlashParts(r, evidence, penalty) { EarlyWithoutStake(r, evidence, penalty); }
    if Revives(r, evidence, penalty) { RevivedHadStake(r, evidence, penalty); }
    hide Sound, Coupled, ExitsKnown, StaysTimely, Registry.Slash, SlashReaches, Revives;
  }

  lemma RevivedHadStake(r: Registry, evidence: SlashEvidence, penalty: Option<int>)
    requires Revives(r, evidence, penalty)
    ensures SlashReaches(r, evidence, penalty) && r.records[evidence.offenderId].stake > 0
  {}

  lemma SlashTimes(r: Registry, evidence: SlashEvidence, penalty: Option<int>)
    requires Orderly(r)
    ensures var q := r.Slash(evidence, penalty).registry; Sound(q.ledger) && StaysTimely(r, q)
  {
    hide Sound, Coupled, ExitsKnown, Timely, Spread, Ledger.Slash, SlashPasses;
    if SlashReaches(r, evidence, penalty) {
      var b, amount := r.bondOf[evidence.offenderId], SlashAmount(r, evidence, penalty);
      PassedAmount(r, evidence, penalty);
      SlashFields(r.ledger, b, amount, evidence.epoch, evidence.evidenceId);
      SlashBooks(r.ledger, b, amount, evidence.epoch, evidence.evidenceId, None);
      var q := r.Slash(evidence, penalty).registry;
      var e := r.ledger.NewEvent(Kind.Slash, evidence.epoch, r.ledger.bonds[b].owner,
                                 Min(amount, r.ledger.bonds[b].amount), evidence.evidenceId);
      SlashSpread(r, q, b, amount);
      OtherKind(q, e);
      SpreadKept(r, q, e);
    } else {
      UntouchedSlash(r, evidence, penalty);
    }
  }

  // ----- Runs

  datatype MemberOp =
    | Admit(request: AdmissionRequest, bond: Option<StakeBond>)
    | Exit(v: string, atEpoch: Option<int>)
    | Withdraw(v: string, atEpoch: Option<int>)
    | Slash(evidence: SlashEvidence, penalty: Option<int>)
    | AdvanceEpoch
    | Fund(account: string, amount: int, source: Option<Id>)
    | ChargeFee(payer: string, amount: int, txId: Id)

  function Do(r: Registry, op: MemberOp): Registry {
    match op
    case Admit(request, bond) => r.Admit(request, bond).registry
    case Exit(v, atEpoch) => r.Exit(v, atEpoch).registry
    case Withdraw(v, atEpoch) => r.Withdraw(v, atEpoch).registry
    case Slash(evidence, penalty) => r.Slash(evidence, penalty).registry
    case AdvanceEpoch => r.AdvanceEpoch()
    case Fund(account, amount, source) => r.(ledger := r.ledger.Fund(account, amount, r.epoch, source).ledger)
    case ChargeFee(payer, amount, txId) => r.(ledger := r.ledger.ChargeFee(payer, amount, r.epoch, txId).ledger)
  }

  /** The branches in which the ledger goes ahead of membership are not taken. */
  predicate MayDo(r: Registry, op: MemberOp) {
    match op
    case Exit(v, atEpoch) => !ExitParts(r, v, atEpoch)
    case Withdraw(v, atEpoch) => !WithdrawParts(r, v, atEpoch)
    case Slash(evidence, penalty) => !SlashParts(r, evidence, penalty)
    case _ => true
  }

  lemma AdvanceKeeps(r: Registry)
    requires Orderly(r)
    ensures Orderly(r.AdvanceEpoch()) && StaysTimely(r, r.AdvanceEpoch())
  {
    var q := r.AdvanceEpoch();
    SameBonds(r, q);
    if Timely(r) {
      forall e | e in q.ledger.events ensures Spread(q, e) { assert Spread(r, e); }
    }
    hide Sound, Coupled, ExitsKnown;
  }

  /** Ledger operations that leave the bonds alone. */
  lemma MoneyKeeps(r: Registry, l: Ledger, e: SettlementEvent)
    requires Orderly(r) && Sound(l) && l.bonds == r.ledger.bonds && l.events <= r.ledger.events + {e}
    requires !(e.kind in {UnbondRequest, Kind.Withdraw})
    ensures Orderly(r.(ledger := l)) && StaysTimely(r, r.(ledger := l))
  {
    hide Sound, Coupled, ExitsKnown, Timely, Spread;
    var q := r.(ledger := l);
    SameBonds(r, q);
    OtherKind(q, e);
    SameSpread(r, q);
    SpreadKept(r, q, e);
  }

  lemma SameSpread(r: Registry, q: Registry)
    requires q.epoch == r.epoch && q.ledger.bonds == r.ledger.bonds
    ensures forall f :: f in r.ledger.events && Spread(r, f) ==> Spread(q, f)
  {}

  lemma FundFields(l: Ledger, account: string, amount: int, epoch: int, source: Option<Id>) returns (e: SettlementEvent)
    ensures var q := l.Fund(account, amount, epoch, source).ledger;
            q.bonds == l.bonds && q.events <= l.events + {e} && e.kind == Kind.Fund
  {
    var related := if source.None? || source.value == Name("") then FundSource(account, amount, epoch) else source.value;
    e := l.NewEvent(Kind.Fund, epoch, account, amount, related);
  }

  lemma FeeFields(l: Ledger, payer: string, amount: int, epoch: int, txId: Id)
    ensures var q := l.ChargeFee(payer, amount, epoch, txId).ledger;
            q.bonds == l.bonds && q.events <= l.events + {l.NewEvent(Fee, epoch, payer, amount, txId)}
  {}

  /** A step keeps stakes, bonds and exits together exactly when it takes none of those branches; the books it keeps. */
  lemma StepExactly(r: Registry, op: MemberOp)
    requires Orderly(r)
    ensures Sound(Do(r, op).ledger) && (Orderly(Do(r, op)) <==> MayDo(r, op))
    ensures (op.Withdraw? ==> Punctual(r, op.atEpoch)) ==> StaysTimely(r, Do(r, op))
  {
    OrderlyParts(r);
    hide Orderly, Sound, Registry.Admit, Registry.Exit, Registry.Withdraw, Registry.Slash, Ledger.Fund, Ledger.ChargeFee,
         ExitParts, WithdrawParts, SlashParts, StaysTimely, Punctual;
    match op
    case Admit(request, bond) =>
      AdmitKeeps(r, request, bond);
      OrderlyParts(Do(r, op));
    case Exit(v, atEpoch) => ExitKeeps(r, v, atEpoch);
    case Withdraw(v, atEpoch) => WithdrawKeeps(r, v, atEpoch);
    case Slash(evidence, penalty) => SlashKeeps(r, evidence, penalty);
    case AdvanceEpoch =>
      AdvanceKeeps(r);
      OrderlyParts(Do(r, op));
    case Fund(account, amount, source) =>
      FundBooks(r.ledger, account, amount, r.epoch, source);
      var e := FundFields(r.ledger, account, amount, r.epoch, source);
      MoneyKeeps(r, r.ledger.Fund(account, amount, r.epoch, source).ledger, e);
    case ChargeFee(payer, amount, txId) =>
      FeeBooks(r.ledger, payer, amount, r.epoch, txId);
      FeeFields(r.ledger, payer, amount, r.epoch, txId);
      MoneyKeeps(r, r.ledger.ChargeFee(payer, amount, r.epoch, txId).ledger, r.ledger.NewEvent(Fee, r.epoch, payer, amount, txId));
  }

  /** What is left to check with a delay: that withdrawals are punctual, and the slashes. */
  predicate Prompt(r: Registry, op: MemberOp) {
    (op.Withdraw? ==> Punctual(r, op.atEpoch)) && (op.Slash? ==> !SlashParts(r, op.evidence, op.penalty))
  }

  lemma TimelyMayDo(r: Registry, op: MemberOp)
    requires Timely(r) && Prompt(r, op)
    ensures MayDo(r, op)
  {
    hide Timely;
    match op
    case Exit(v, atEpoch) => if CanUnbond(r, v, atEpoch) { NoSecondRequest(r, v, atEpoch); }
    case Withdraw(v, atEpoch) => if WithdrawalDue(r, v, atEpoch) { NoSecondWithdrawal(r, v, Now(r, atEpoch)); }
    case _ =>
  }

  function Run(r: Registry, ops: seq<MemberOp>): Option<Registry> {
    if ops == [] then Some(r)
    else
      match Run(r, ops[..|ops| - 1])
      case None => None
      case Some(q) => if MayDo(q, ops[|ops| - 1]) then Some(Do(q, ops[|ops| - 1])) else None
  }

  /**
   Over every such run, whatever the delay and the epochs passed, every stake is the amount of its own bond; and a
   withdrawal whose ledger half returns goes through.
   */
  lemma {:induction false} RunOrderly(r: Registry, ops: seq<MemberOp>)
    requires Orderly(r) && Run(r, ops).Some?
    ensures var q := Run(r, ops).value;
            && Orderly(q)
            && forall v, at :: v in q.records && q.ledger.Withdraw(q.bondOf[v], Now(q, at)).result.Ok? ==> q.Withdraw(v, at).ok
  {
    hide Do, MayDo;
    if ops != [] {
      hide Orderly, Registry.Withdraw, Ledger.Withdraw;
      var before := Run(r, ops[..|ops| - 1]).value;
      RunOrderly(r, ops[..|ops| - 1]);
      StepExactly(before, ops[|ops| - 1]);
    }
    var q := Run(r, ops).value;
    WithdrawalsGoThrough(q);
  }

  lemma WithdrawalsGoThrough(q: Registry)
    requires Orderly(q)
    ensures forall v :: v in q.records ==> v in q.bondOf
    ensures forall v, at :: v in q.records && q.ledger.Withdraw(q.bondOf[v], Now(q, at)).result.Ok? ==> q.Withdraw(v, at).ok
  {
    assert Clean(q.ledger) && q.records.Keys == q.bondOf.Keys;
    hide Sound, Clean, Coupled, ExitsKnown, Ledger.Withdraw, Registry.Withdraw;
    forall v, at | v in q.records && q.ledger.Withdraw(q.bondOf[v], Now(q, at)).result.Ok? ensures q.Withdraw(v, at).ok {
      PaidWithdrawalGoesThrough(q, v, at);
    }
  }

  /** The run without the checks. */
  function Play(r: Registry, ops: seq<MemberOp>): Registry {
    if ops == [] then r else Do(Play(r, ops[..|ops| - 1]), ops[|ops| - 1])
  }

  ghost predicate PromptRun(r: Registry, ops: seq<MemberOp>) {
    ops != [] ==> PromptRun(r, ops[..|ops| - 1]) && Prompt(Play(r, ops[..|ops| - 1]), ops[|ops| - 1])
  }

  /** With a delay, no exit and no punctual withdrawal of a run takes a branch in which the ledger goes ahead. */
  lemma {:induction false} PromptRunsKeep(r: Registry, ops: seq<MemberOp>)
    requires Orderly(r) && Timely(r) && PromptRun(r, ops)
    ensures Run(r, ops) == Some(Play(r, ops)) && Orderly(Play(r, ops)) && Timely(Play(r, ops))
  {
    hide Do, MayDo, Orderly, Timely, Punctual;
    if ops != [] {
      var before, op := Play(r, ops[..|ops| - 1]), ops[|ops| - 1];
      PromptRunsKeep(r, ops[..|ops| - 1]);
      TimelyMayDo(before, op);
      StepExactly(before, op);
    }
  }
}
