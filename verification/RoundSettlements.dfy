/**
 Settling a beacon round: it raises with nothing changed, or pays every revealer the reward and takes the penalty of
 every silent validator from bond and stake alike; asking again changes nothing.
 */
module RoundSettlements {
  import opened Results
  import opened Names
  import opened Sums
  import opened Settlement
  import opened Books
  import opened Rewards
  import opened Membership
  import opened MembershipRuns
  import opened Beacon
  import opened PenaltyRuns

  // ----- Equal rewards

  /** How many of these bonds the account owns. */
  function Owned(bonds: map<string, BondPosition>, names: seq<string>, account: string): nat
    requires forall i :: 0 <= i < |names| ==> names[i] in bonds
  {
    if names == [] then 0 else (if bonds[names[0]].owner == account then 1 else 0) + Owned(bonds, names[1..], account)
  }

  lemma {:induction false} EqualSum(bonds: set<string>, s: set<string>)
    requires s <= bonds
    ensures SumOver(EqualWeights(bonds), s) == |s|
  {
    if s != {} {
      var x :| x in s;
      SumOverRemove(EqualWeights(bonds), s, x);
      EqualSum(bonds, s - {x});
    }
  }

  lemma EqualWeightSum(bonds: set<string>)
    ensures Sum(EqualWeights(bonds)) == |bonds| && EqualWeights(bonds).Keys == bonds
  {
    EqualSum(bonds, bonds);
    assert EqualWeights(bonds).Keys == bonds;
  }

  lemma WholeShares(reward: int, n: int, left: int)
    requires n > 0 && left >= 1
    ensures reward * n * 1 / n == reward
    ensures reward * n - reward * (n - 1) == reward
    ensures reward * (n - left) + reward == reward * (n - (left - 1))
  {
    assert reward * n * 1 == n * reward;
    ExactDivision(reward, n);
  }

  lemma ExactDivision(a: int, n: int)
    requires n > 0
    ensures n * a / n == a
  {
    var q, rem := n * a / n, n * a % n;
    assert n * a == n * q + rem;
    assert n * (a - q) == n * a - n * q;
    SmallMultiple(n, a - q);
  }

  lemma SmallMultiple(n: int, d: int)
    requires n > 0
    ensures d >= 1 ==> n * d >= n
    ensures d <= -1 ==> n * d <= -n
  {
    if d >= 1 { assert n * d >= n * 1; }
    if d <= -1 { assert n * d <= n * -1; }
  }

  /** What each account has gained, and that each recipient's reward is on record. */
  ghost predicate PaidEach(l: Ledger, q: Ledger, epoch: int, reward: int, rest: seq<string>)
    requires AllKnown(l, rest)
  {
    && (forall a :: q.BalanceOf(a) == l.BalanceOf(a) + reward * Owned(l.bonds, rest, a))
    && (forall i :: 0 <= i < |rest| ==>
          l.NewEvent(Reward, epoch, l.bonds[rest[i]].owner, reward, Name(rest[i])) in q.events)
    && l.events <= q.events && q.bonds == l.bonds && q.asset == l.asset
  }

  lemma {:induction false} PayEqual(l: Ledger, epoch: int, reward: int, bonds: set<string>, rest: seq<string>, distributed: int)
    requires Clean(l) && AllKnown(l, rest) && Unpaid(l, epoch, rest) && NoRepeats(rest) && |bonds| > 0
    requires Paying(reward * |bonds|, EqualWeights(bonds), |bonds|, rest, distributed)
    requires distributed == reward * (|bonds| - |rest|)
    ensures PaidEach(l, l.PayRewards(epoch, reward * |bonds|, EqualWeights(bonds), |bonds|, rest, distributed).ledger,
                     epoch, reward, rest)
    decreases |rest|
  {
    hide PaidEach, Balance, OnlyRewards, Ledger.Share, Clean;
    var total, weights, n := reward * |bonds|, EqualWeights(bonds), |bonds|;
    if rest == [] {
      NothingPaid(l, epoch, reward, rest);
    } else {
      EqualShare(l, reward, bonds, rest, distributed);
      ShareFits(l, total, weights, n, rest, distributed);
      PayFirst(l, epoch, total, weights, n, rest, distributed);
      hide Unpaid, NoRepeats, Paying, AllKnown, EqualWeights, Ledger.PayRewards;
      WholeShares(reward, n, |rest|);
      var m := PaidFirst(l, epoch, reward, rest[0]);
      RestKnown(l, m, rest);
      PayEqual(m, epoch, reward, bonds, rest[1..], distributed + reward);
      PaidEachStep(l, epoch, reward, rest, m.PayRewards(epoch, total, weights, n, rest[1..], distributed + reward).ledger);
    }
  }

  lemma NothingPaid(l: Ledger, epoch: int, reward: int, rest: seq<string>)
    requires rest == []
    ensures PaidEach(l, l, epoch, reward, rest)
  {
    forall a ensures reward * Owned(l.bonds, rest, a) == 0 {}
  }

  lemma EqualShare(l: Ledger, reward: int, bonds: set<string>, rest: seq<string>, distributed: int)
    requires rest != [] && rest[0] in bonds && |bonds| > 0 && distributed == reward * (|bonds| - |rest|)
    ensures l.Share(reward * |bonds|, EqualWeights(bonds), |bonds|, rest, distributed) == reward
  {
    WholeShares(reward, |bonds|, |rest|);
  }

  lemma RestKnown(l: Ledger, m: Ledger, rest: seq<string>)
    requires rest != [] && AllKnown(l, rest) && m.bonds == l.bonds
    ensures AllKnown(m, rest[1..]) && rest[0] in l.bonds
  {}

  lemma PaidEachStep(l: Ledger, epoch: int, reward: int, rest: seq<string>, q: Ledger)
    requires rest != [] && AllKnown(l, rest) && rest[0] in l.bonds
    requires AllKnown(PaidFirst(l, epoch, reward, rest[0]), rest[1..])
    requires PaidEach(PaidFirst(l, epoch, reward, rest[0]), q, epoch, reward, rest[1..])
    ensures PaidEach(l, q, epoch, reward, rest)
  {
    var m := PaidFirst(l, epoch, reward, rest[0]);
    forall a ensures q.BalanceOf(a) == l.BalanceOf(a) + reward * Owned(l.bonds, rest, a) {
      var tail := Owned(l.bonds, rest[1..], a);
      assert Owned(m.bonds, rest[1..], a) == tail;
      assert reward * (1 + tail) == reward + reward * tail;
    }
    forall i | 0 <= i < |rest|
      ensures l.NewEvent(Reward, epoch, l.bonds[rest[i]].owner, reward, Name(rest[i])) in q.events
    {
      if i > 0 { assert rest[1..][i - 1] == rest[i]; }
    }
  }

  // ----- The rewards of a round

  lemma {:induction false} ImageSize(bondOf: map<string, string>, vs: set<string>)
    requires Unshared(bondOf) && vs <= bondOf.Keys
    ensures |set v | v in vs :: bondOf[v]| == |vs|
  {
    var image := set v | v in vs :: bondOf[v];
    if vs == {} {
      assert image == {};
    } else {
      var x :| x in vs;
      ImageSize(bondOf, vs - {x});
      var smaller := set v | v in vs - {x} :: bondOf[v];
      assert image == smaller + {bondOf[x]};
      assert bondOf[x] !in smaller;
    }
  }

  /** The bonds the rewards of a set of validators go to. */
  function Recipients(r: Registry, vs: set<string>): seq<string>
    requires vs <= r.bondOf.Keys
  {
    SortedNames(BondsOf(r, vs))
  }

  predicate RewardReady(r: Registry, vs: set<string>, key: int, reward: int) {
    && vs != {} && vs <= r.bondOf.Keys && reward > 0 && key !in r.ledger.settledRewardEpochs
    && r.ledger.BalanceOf(r.ledger.treasury) >= reward * |vs|
  }

  function Distribution(r: Registry, vs: set<string>): map<string, int>
    requires vs <= r.bondOf.Keys
  {
    EqualWeights(BondsOf(r, vs))
  }

  lemma RecipientsKnown(r: Registry, vs: set<string>)
    requires Coupled(r) && vs <= r.bondOf.Keys
    ensures BondsOf(r, vs) <= r.ledger.bonds.Keys && |BondsOf(r, vs)| == |vs|
    ensures AllKnown(r.ledger, Recipients(r, vs))
  {
    ImageSize(r.bondOf, vs);
    forall b | b in BondsOf(r, vs) ensures b in r.ledger.bonds {
      var v :| v in vs && r.bondOf[v] == b;
      BackedBond(r, v);
    }
    hide Coupled, SortedNames;
    var names := Recipients(r, vs);
    forall i | 0 <= i < |names| ensures names[i] in r.ledger.bonds { assert names[i] in names; }
  }

  lemma RewardFundable(r: Registry, vs: set<string>, key: int, reward: int)
    requires Coupled(r) && RewardReady(r, vs, key, reward)
    ensures Fundable(r.ledger, key, reward * |vs|, Distribution(r, vs))
    ensures Distribution(r, vs).Keys <= r.ledger.bonds.Keys
  {
    hide Coupled, AllKnown, Sum, SumOver, SortedNames, Recipients, BondsOf;
    RecipientsKnown(r, vs);
    EqualWeightSum(BondsOf(r, vs));
    TotalPositive(reward, vs);
    NotEmpty(BondsOf(r, vs));
  }

  lemma TotalPositive(reward: int, vs: set<string>)
    requires reward > 0 && vs != {}
    ensures |vs| > 0 && reward * |vs| > 0
  {}

  lemma NotEmpty(bonds: set<string>)
    requires |bonds| > 0
    ensures EqualWeights(bonds) != map[]
  {
    assert EqualWeights(bonds).Keys == bonds;
  }

  /** The ledger after the treasury gave the rewards to the owners of the bonds. */
  ghost predicate RewardsPaid(r: Registry, vs: set<string>, key: int, reward: int, q: Ledger)
    requires vs <= r.bondOf.Keys && AllKnown(r.ledger, Recipients(r, vs))
  {
    var l, names := r.ledger, Recipients(r, vs);
    && (forall a :: q.BalanceOf(a) ==
                    l.BalanceOf(a) - (if a == l.treasury then reward * |vs| else 0) + reward * Owned(l.bonds, names, a))
    && (forall i :: 0 <= i < |names| ==> l.NewEvent(Reward, key, l.bonds[names[i]].owner, reward, Name(names[i])) in q.events)
    && q == l.(balances := q.balances, events := q.events, settledRewardEpochs := l.settledRewardEpochs + {key})
    && l.events <= q.events && forall e :: e in q.events && e !in l.events ==> e.kind == Reward
  }

  lemma PaidFromTreasury(l: Ledger, d: Ledger, q: Ledger, total: int, key: int, reward: int, names: seq<string>)
    requires AllKnown(l, names) && AllKnown(d, names) && d.bonds == l.bonds && d.asset == l.asset && d.events == l.events
    requires d.treasury == l.treasury && d == l.Debit(l.treasury, total).ledger
    requires total >= 0 && l.BalanceOf(l.treasury) >= total
    requires PaidEach(d, q, key, reward, names)
    ensures forall a :: q.BalanceOf(a) ==
                        l.BalanceOf(a) - (if a == l.treasury then total else 0) + reward * Owned(l.bonds, names, a)
    ensures forall i :: 0 <= i < |names| ==> l.NewEvent(Reward, key, l.bonds[names[i]].owner, reward, Name(names[i])) in q.events
  {
    hide Owned;
  }

  lemma RewardsGoThrough(r: Registry, vs: set<string>, key: int, reward: int)
    requires Sound(r.ledger) && Coupled(r) && RewardReady(r, vs, key, reward)
    ensures var q := r.ledger.DistributeRewards(key, reward * |vs|, Distribution(r, vs));
            && q.result.Ok? && Sound(q.ledger) && Balance(q.ledger) == Balance(r.ledger)
            && AllKnown(r.ledger, Recipients(r, vs)) && RewardsPaid(r, vs, key, reward, q.ledger)
  {
    assert vs <= r.bondOf.Keys;
    hide Sound, Coupled, Balance, Ledger.DistributeRewards, RewardReady, Fundable, SortedNames;
    RewardFundable(r, vs, key, reward);
    RecipientsKnown(r, vs);
    DistributeExactly(r.ledger, key, reward * |vs|, Distribution(r, vs));
    RewardDetails(r, vs, key, reward);
  }

  /** Paying the recipients, from a ledger whose treasury was debited. */
  lemma PayRecipients(d: Ledger, bonds: set<string>, key: int, reward: int)
    requires Clean(d) && AllRemembered(d) && key !in d.settledRewardEpochs && AllKnown(d, SortedNames(bonds))
    requires |bonds| > 0 && reward > 0
    ensures SortedNames(bonds) != [] && forall i :: 0 <= i < |SortedNames(bonds)| ==> SortedNames(bonds)[i] in EqualWeights(bonds)
    ensures var names := SortedNames(bonds);
            var q := d.PayRewards(key, reward * |bonds|, EqualWeights(bonds), |bonds|, names, 0).ledger;
            PaidEach(d, q, key, reward, names) && OnlyRewards(d, q, key)
  {
    var names := SortedNames(bonds);
    assert |names| == |bonds| && NoRepeats(names);
    EqualWeightSum(bonds);
    ListWeightIsSum(EqualWeights(bonds), bonds);
    EqualPositive(bonds, names, reward);
    NothingPaidYet(d, key, names);
    hide Clean, AllRemembered, SortedNames, EqualWeights, Sum, Ledger.PayRewards, PaidEach, Unpaid, NoRepeats, Balance,
         OnlyRewards, AllKnown, ListWeight;
    PayEqual(d, key, reward, bonds, names, 0);
    PayAll(d, key, reward * |bonds|, EqualWeights(bonds), |bonds|, names, 0);
  }

  lemma EqualPositive(bonds: set<string>, names: seq<string>, reward: int)
    requires reward > 0 && |bonds| > 0 && forall x :: x in names ==> x in bonds
    ensures reward * |bonds| > 0
    ensures forall i :: 0 <= i < |names| ==> names[i] in EqualWeights(bonds) && EqualWeights(bonds)[names[i]] > 0
  {
    forall i | 0 <= i < |names| ensures names[i] in EqualWeights(bonds) { assert names[i] in names; }
  }

  lemma RewardDetails(r: Registry, vs: set<string>, key: int, reward: int)
    requires Sound(r.ledger) && Coupled(r) && RewardReady(r, vs, key, reward)
    requires Fundable(r.ledger, key, reward * |vs|, Distribution(r, vs)) && AllKnown(r.ledger, Recipients(r, vs))
    requires |BondsOf(r, vs)| == |vs|
    requires r.ledger.DistributeRewards(key, reward * |vs|, Distribution(r, vs)).result.Ok?
    ensures RewardsPaid(r, vs, key, reward, r.ledger.DistributeRewards(key, reward * |vs|, Distribution(r, vs)).ledger)
  {
    var l, bonds, weights := r.ledger, BondsOf(r, vs), Distribution(r, vs);
    var total, names := reward * |vs|, Recipients(r, vs);
    assert total > 0 && key !in l.settledRewardEpochs && weights != map[];
    EqualWeightSum(bonds);
    hide Coupled, Clean, AllRemembered, SortedNames, EqualWeights, BondsOf, Ledger.DistributeRewards, Sum, Ledger.PayRewards,
         PaidEach, Balance, Owned;
    DebitTreasury(l, total);
    var d := l.Debit(l.treasury, total).ledger;
    SameKnown(l, d, names);
    PayRecipients(d, bonds, key, reward);
    DistributeSteps(l, key, total, weights);
    hide Ledger.Debit, OnlyRewards, Recipients, AllKnown, RewardsPaid, Ledger.BalanceOf;
    Assembled(r, vs, key, reward, d, d.PayRewards(key, total, weights, |bonds|, names, 0).ledger);
  }

  lemma Assembled(r: Registry, vs: set<string>, key: int, reward: int, d: Ledger, paid: Ledger)
    requires vs <= r.bondOf.Keys && d == r.ledger.Debit(r.ledger.treasury, reward * |vs|).ledger
    requires reward * |vs| >= 0 && r.ledger.BalanceOf(r.ledger.treasury) >= reward * |vs|
    requires AllKnown(r.ledger, Recipients(r, vs)) && AllKnown(d, Recipients(r, vs))
    requires PaidEach(d, paid, key, reward, Recipients(r, vs)) && OnlyRewards(d, paid, key)
    ensures RewardsPaid(r, vs, key, reward, paid.(settledRewardEpochs := paid.settledRewardEpochs + {key}))
  {
    hide Recipients, Owned, PaidEach;
    PaidFromTreasury(r.ledger, d, paid, reward * |vs|, key, reward, Recipients(r, vs));
    hide AllKnown;
  }
}
