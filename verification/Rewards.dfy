/**
 Reward distribution: the whole amount reaches the recipients when every bond is known, and value is lost exactly
 when one is not.
 */
module Rewards {
  import opened Results
  import opened Names
  import opened Sums
  import opened Settlement
  import opened Books

  function ListWeight(weights: map<string, int>, rest: seq<string>): int
    requires forall i :: 0 <= i < |rest| ==> rest[i] in weights
  {
    if rest == [] then 0 else weights[rest[0]] + ListWeight(weights, rest[1..])
  }

  lemma {:induction false} ListWeightIsSum(weights: map<string, int>, s: set<string>)
    requires s <= weights.Keys
    ensures forall i :: 0 <= i < |SortedNames(s)| ==> SortedNames(s)[i] in weights
    ensures ListWeight(weights, SortedNames(s)) == SumOver(weights, s)
    decreases |s|
  {
    hide SortedNames, First;
    var r := SortedNames(s);
    forall i | 0 <= i < |r| ensures r[i] in weights { assert r[i] in r; }
    if s == {} {
      assert r == [];
    } else {
      FirstSplit(s);
      ListWeightIsSum(weights, s - {First(s)});
      SumOverRemove(weights, s, First(s));
      assert r[1..] == SortedNames(s - {First(s)});
    }
  }

  lemma {:induction false} ListWeightAtLeast(weights: map<string, int>, rest: seq<string>)
    requires forall i :: 0 <= i < |rest| ==> rest[i] in weights && weights[rest[i]] > 0
    ensures ListWeight(weights, rest) >= |rest|
  {
    if rest != [] { ListWeightAtLeast(weights, rest[1..]); }
  }

  /** What is known in the middle of a distribution. */
  ghost predicate Paying(total: int, weights: map<string, int>, sum: int, rest: seq<string>, distributed: int) {
    && sum > 0 && total > 0 && 0 <= distributed
    && (forall i :: 0 <= i < |rest| ==> rest[i] in weights && weights[rest[i]] > 0)
    && ListWeight(weights, rest) <= sum
    && distributed * sum <= total * (sum - ListWeight(weights, rest))
  }

  lemma MulLess(a: int, b: int, c: int)
    requires c > 0 && a * c < b * c
    ensures a < b
  {}

  lemma SomethingLeft(total: int, weights: map<string, int>, sum: int, rest: seq<string>, distributed: int)
    requires Paying(total, weights, sum, rest, distributed) && rest != []
    ensures distributed < total
  {
    ListWeightAtLeast(weights, rest);
    var taken := sum - ListWeight(weights, rest);
    assert total * taken <= total * (sum - 1) by { MulMonotone(total, taken, sum - 1); }
    assert total * (sum - 1) == total * sum - total;
    MulLess(distributed, total, sum);
  }

  lemma MulMonotone(a: int, b: int, c: int)
    requires a >= 0 && b <= c
    ensures a * b <= a * c
  {}

  lemma ShareFits(l: Ledger, total: int, weights: map<string, int>, sum: int, rest: seq<string>, distributed: int)
    requires Paying(total, weights, sum, rest, distributed) && rest != []
    ensures var amount := l.Share(total, weights, sum, rest, distributed);
            amount >= 0 && Paying(total, weights, sum, rest[1..], distributed + amount)
            && (|rest| == 1 ==> distributed + amount == total)
  {
    SomethingLeft(total, weights, sum, rest, distributed);
    var w := weights[rest[0]];
    var left := ListWeight(weights, rest[1..]);
    var amount := l.Share(total, weights, sum, rest, distributed);
    if |rest| == 1 {
      assert rest[1..] == [];
    } else {
      ListWeightAtLeast(weights, rest[1..]);
      FloorShare(total, w, sum);
      assert (distributed + amount) * sum == distributed * sum + amount * sum;
      assert total * (sum - left - w) + total * w == total * (sum - left);
    }
  }

  lemma FloorShare(total: int, w: int, sum: int)
    requires total > 0 && w > 0 && sum > 0
    ensures 0 <= total * w / sum && total * w / sum * sum <= total * w
  {
    assert total * w > 0;
    FloorDivision(total * w, sum);
  }

  /** Nobody gets less than the floor of its share, and only the last in order may get more. */
  lemma ShareCovers(l: Ledger, total: int, weights: map<string, int>, sum: int, rest: seq<string>, distributed: int)
    requires Paying(total, weights, sum, rest, distributed) && rest != []
    ensures var amount, share := l.Share(total, weights, sum, rest, distributed), total * weights[rest[0]] / sum;
            amount >= share && (|rest| > 1 ==> amount == share)
  {
    if |rest| == 1 {
      assert ListWeight(weights, rest) == weights[rest[0]] + ListWeight(weights, rest[1..]) && rest[1..] == [];
      RemainderCovers(total, weights[rest[0]], sum, distributed);
    }
  }

  /** What is left for a last recipient of weight w is at least its floor share. */
  lemma RemainderCovers(total: int, w: int, sum: int, distributed: int)
    requires sum > 0 && distributed * sum <= total * (sum - w)
    ensures total - distributed >= total * w / sum
  {
    var share := total * w / sum;
    assert total * w == share * sum + total * w % sum;
    assert total * (sum - w) == total * sum - total * w;
    if share > total - distributed { MulMonotone(sum, total - distributed, share - 1); }
  }

  lemma FloorDivision(n: int, d: int)
    requires n >= 0 && d > 0
    ensures n / d >= 0 && n / d * d <= n
  {}

  /** No recipient still to be paid has a reward for this epoch on record. */
  ghost predicate Unpaid(l: Ledger, epoch: int, rest: seq<string>) {
    forall e, i :: e in l.events && 0 <= i < |rest| && e.kind == Reward && e.epoch == epoch ==> e.relatedId != Name(rest[i])
  }

  predicate AllKnown(l: Ledger, rest: seq<string>) { forall i :: 0 <= i < |rest| ==> rest[i] in l.bonds }

  /** Only balances and rewards of this epoch are added. */
  ghost predicate OnlyRewards(l: Ledger, q: Ledger, epoch: int) {
    && q == l.(balances := q.balances, events := q.events)
    && l.events <= q.events && forall e :: e in q.events && e !in l.events ==> e.kind == Reward && e.epoch == epoch
  }

  /** The ledger after the first remaining recipient is paid. */
  function PaidFirst(l: Ledger, epoch: int, amount: int, bondId: string): Ledger
    requires bondId in l.bonds
  {
    var owner := l.bonds[bondId].owner;
    l.(events := l.events + {l.NewEvent(Reward, epoch, owner, amount, Name(bondId))},
       balances := l.balances[owner := l.BalanceOf(owner) + amount])
  }

  lemma PayFirst(l: Ledger, epoch: int, total: int, weights: map<string, int>, sum: int, rest: seq<string>, distributed: int)
    requires Clean(l) && Paying(total, weights, sum, rest, distributed) && Unpaid(l, epoch, rest) && NoRepeats(rest)
    requires rest != [] && rest[0] in l.bonds
    ensures var amount := l.Share(total, weights, sum, rest, distributed);
            var m := PaidFirst(l, epoch, amount, rest[0]);
            var after := m.PayRewards(epoch, total, weights, sum, rest[1..], distributed + amount);
            && l.PayRewards(epoch, total, weights, sum, rest, distributed).ledger == after.ledger
            && l.PayRewards(epoch, total, weights, sum, rest, distributed).result.Ok? == after.result.Ok?
            && Clean(m) && Balance(m) == Balance(l) + amount && Unpaid(m, epoch, rest[1..]) && NoRepeats(rest[1..])
            && OnlyRewards(l, m, epoch)
  {
    hide ListWeight, Holdings, Funded, Ledger.Audit;
    BondOf(l, rest[0]);
    ShareFits(l, total, weights, sum, rest, distributed);
    var amount := l.Share(total, weights, sum, rest, distributed);
    var owner := l.bonds[rest[0]].owner;
    hide Ledger.Share, Paying;
    NoteAndPay(l, l.NewEvent(Reward, epoch, owner, amount, Name(rest[0])), owner, amount);
  }

  lemma OnlyRewardsThrough(l: Ledger, m: Ledger, q: Ledger, epoch: int)
    requires OnlyRewards(l, m, epoch) && OnlyRewards(m, q, epoch)
    ensures OnlyRewards(l, q, epoch)
  {}

  lemma {:induction false} PayAll(l: Ledger, epoch: int, total: int, weights: map<string, int>, sum: int,
                                  rest: seq<string>, distributed: int)
    requires Clean(l) && Paying(total, weights, sum, rest, distributed) && Unpaid(l, epoch, rest) && NoRepeats(rest)
    ensures var q := l.PayRewards(epoch, total, weights, sum, rest, distributed);
            && Clean(q.ledger) && OnlyRewards(l, q.ledger, epoch)
            && (q.result.Ok? <==> AllKnown(l, rest))
            && if AllKnown(l, rest) then Balance(q.ledger) == Balance(l) + (if rest == [] then 0 else total - distributed)
               else Balance(q.ledger) < Balance(l) + total - distributed
    decreases |rest|
  {
    hide Balance, Clean, ListWeight, Unpaid, NoRepeats, Ledger.Share;
    if rest == [] {
    } else if rest[0] !in l.bonds {
      SomethingLeft(total, weights, sum, rest, distributed);
    } else {
      ShareFits(l, total, weights, sum, rest, distributed);
      PayFirst(l, epoch, total, weights, sum, rest, distributed);
      var amount := l.Share(total, weights, sum, rest, distributed);
      PayRest(l, PaidFirst(l, epoch, amount, rest[0]), epoch, total, weights, sum, rest, distributed, amount);
    }
  }

  lemma {:induction false} PayRest(l: Ledger, m: Ledger, epoch: int, total: int, weights: map<string, int>, sum: int,
                                   rest: seq<string>, distributed: int, amount: int)
    requires rest != [] && rest[0] in l.bonds && m.bonds == l.bonds
    requires Clean(m) && Paying(total, weights, sum, rest[1..], distributed + amount)
    requires Unpaid(m, epoch, rest[1..]) && NoRepeats(rest[1..]) && OnlyRewards(l, m, epoch)
    requires Balance(m) == Balance(l) + amount && (|rest| == 1 ==> distributed + amount == total)
    ensures var q := m.PayRewards(epoch, total, weights, sum, rest[1..], distributed + amount);
            && Clean(q.ledger) && OnlyRewards(l, q.ledger, epoch)
            && (q.result.Ok? <==> AllKnown(l, rest))
            && if AllKnown(l, rest) then Balance(q.ledger) == Balance(l) + total - distributed
               else Balance(q.ledger) < Balance(l) + total - distributed
    decreases |rest|, 0
  {
    var q := m.PayRewards(epoch, total, weights, sum, rest[1..], distributed + amount).ledger;
    hide Balance, Clean, ListWeight, Unpaid, NoRepeats, Paying, Ledger.PayRewards, OnlyRewards, AllKnown;
    KnownRest(l, m, rest);
    PayAll(m, epoch, total, weights, sum, rest[1..], distributed + amount);
    OnlyRewardsThrough(l, m, q, epoch);
  }

  lemma KnownRest(l: Ledger, m: Ledger, rest: seq<string>)
    requires rest != [] && rest[0] in l.bonds && m.bonds == l.bonds
    ensures AllKnown(m, rest[1..]) <==> AllKnown(l, rest)
  {
    if AllKnown(m, rest[1..]) {
      forall i | 0 <= i < |rest| ensures rest[i] in l.bonds { if i > 0 { assert rest[1..][i - 1] in m.bonds; } }
    }
  }

  // ----- The whole distribution

  predicate Fundable(l: Ledger, epoch: int, total: int, weights: map<string, int>) {
    !l.RewardsRefused(epoch, total, weights) && l.BalanceOf(l.treasury) >= total
  }

  lemma StartsPaying(l: Ledger, epoch: int, total: int, weights: map<string, int>)
    requires Fundable(l, epoch, total, weights)
    ensures Paying(total, weights, Sum(weights), SortedNames(weights.Keys), 0) && NoRepeats(SortedNames(weights.Keys))
    ensures SortedNames(weights.Keys) != []
    ensures AllKnown(l, SortedNames(weights.Keys)) <==> weights.Keys <= l.bonds.Keys
  {
    hide SortedNames, SumOver, ListWeight;
    var r := SortedNames(weights.Keys);
    PositiveSum(weights);
    ListWeightIsSum(weights, weights.Keys);
    NoKeysIsEmpty(weights);
    forall i | 0 <= i < |r| ensures r[i] in weights && weights[r[i]] > 0 { assert r[i] in r; }
    if AllKnown(l, r) { forall b | b in weights ensures b in l.bonds { assert b in r; } }
  }

  lemma NothingPaidYet(l: Ledger, epoch: int, rest: seq<string>)
    requires AllRemembered(l) && epoch !in l.settledRewardEpochs
    ensures Unpaid(l, epoch, rest)
  {
    hide AllRemembered, Remembered;
    forall e | e in l.events && e.kind == Reward ensures e.epoch != epoch { RememberedEpoch(l, e); }
  }

  lemma RememberedEpoch(l: Ledger, e: SettlementEvent)
    requires AllRemembered(l) && e in l.events && e.kind == Reward
    ensures e.epoch in l.settledRewardEpochs
  {
    assert Remembered(l, e);
  }

  lemma RewardsRemembered(l: Ledger, q: Ledger, epoch: int)
    requires AllRemembered(l) && OnlyRewards(l, q, epoch)
    ensures AllRemembered(q.(settledRewardEpochs := q.settledRewardEpochs + {epoch}))
  {
    var r := q.(settledRewardEpochs := q.settledRewardEpochs + {epoch});
    forall e | e in r.events ensures Remembered(r, e) {
      if e in l.events { assert Remembered(l, e); }
    }
  }

  /**
   distribute_rewards loses value exactly when its guards and the debit pass and some bond it names is unknown; it
   then raises with the treasury short of what was not paid out. In every other case it keeps the books.
   */
  lemma DistributeExactly(l: Ledger, epoch: int, total: int, weights: map<string, int>)
    requires Sound(l)
    ensures var q := l.DistributeRewards(epoch, total, weights);
            && Clean(q.ledger)
            && (Balance(q.ledger) == Balance(l) <==> !(Fundable(l, epoch, total, weights) && !(weights.Keys <= l.bonds.Keys)))
            && Balance(q.ledger) <= Balance(l)
            && (q.result.Ok? <==> Fundable(l, epoch, total, weights) && weights.Keys <= l.bonds.Keys)
            && (Balance(q.ledger) == Balance(l) ==> Sound(q.ledger))
  {
    hide Balance, Clean, AllRemembered, Ledger.PayRewards, Paying, NoRepeats, Unpaid, OnlyRewards, SortedNames, Sum, AllKnown;
    if Fundable(l, epoch, total, weights) {
      DebitTreasury(l, total);
      var d := l.Debit(l.treasury, total).ledger;
      StartsPaying(l, epoch, total, weights);
      StartsPaying(d.(balances := l.balances), epoch, total, weights);
      SameKnown(l, d, SortedNames(weights.Keys));
      var ordered := SortedNames(weights.Keys);
      NothingPaidYet(d, epoch, ordered);
      PayAll(d, epoch, total, weights, Sum(weights), ordered, 0);
      PositiveSum(weights);
      ListWeightIsSum(weights, weights.Keys);
      DistributeSteps(l, epoch, total, weights);
      var paid := d.PayRewards(epoch, total, weights, Sum(weights), ordered, 0);
      if paid.result.Ok? { SettleEpoch(l, d, paid.ledger, epoch); }
    }
  }

  lemma SameKnown(l: Ledger, d: Ledger, rest: seq<string>)
    requires l.bonds == d.bonds
    ensures AllKnown(l, rest) == AllKnown(d, rest)
  {}

  lemma DebitTreasury(l: Ledger, total: int)
    requires Sound(l) && total > 0 && l.BalanceOf(l.treasury) >= total
    ensures var d := l.Debit(l.treasury, total);
            && d.result.Ok? && Clean(d.ledger) && AllRemembered(d.ledger) && Balance(d.ledger) == Balance(l) - total
            && d.ledger == l.(balances := d.ledger.balances)
  {
    hide Clean, Holdings, Funded, AllRemembered;
    DebitBooks(l, l.treasury, total);
    var q := l.Debit(l.treasury, total).ledger;
    SameMemory(l, q);
  }

  lemma SameMemory(l: Ledger, q: Ledger)
    requires AllRemembered(l) && q == l.(balances := q.balances)
    ensures AllRemembered(q)
  {
    forall e | e in q.events ensures Remembered(q, e) { assert Remembered(l, e); }
  }

  lemma DistributeSteps(l: Ledger, epoch: int, total: int, weights: map<string, int>)
    requires Fundable(l, epoch, total, weights)
    requires Sum(weights) > 0
    requires var r := SortedNames(weights.Keys); forall i :: 0 <= i < |r| ==> r[i] in weights
    ensures var paid := l.Debit(l.treasury, total).ledger
                        .PayRewards(epoch, total, weights, Sum(weights), SortedNames(weights.Keys), 0);
            l.DistributeRewards(epoch, total, weights) ==
            if paid.result.Err? then paid
            else Settled(paid.ledger.(settledRewardEpochs := paid.ledger.settledRewardEpochs + {epoch}), paid.result)
  {
    hide Ledger.PayRewards, SortedNames, Sum;
  }

  lemma SettleEpoch(l: Ledger, d: Ledger, q: Ledger, epoch: int)
    requires AllRemembered(d) && OnlyRewards(d, q, epoch) && Clean(q)
    ensures var r := q.(settledRewardEpochs := q.settledRewardEpochs + {epoch});
            Sound(r) && Balance(r) == Balance(q)
  {
    RewardsRemembered(d, q, epoch);
    hide AllRemembered, OnlyRewards;
  }

  // ----- Who gets what

  /** What the events pay to one account. */
  function Received(events: seq<SettlementEvent>, account: string): int {
    if events == [] then 0
    else (if events[0].account == account then events[0].amount else 0) + Received(events[1..], account)
  }

  function Paid(events: seq<SettlementEvent>): int {
    if events == [] then 0 else events[0].amount + Paid(events[1..])
  }

  /** The reward of one recipient: its floor share, or for the last in order at least that. */
  predicate FairReward(l: Ledger, epoch: int, total: int, weights: map<string, int>, sum: int, bondId: string,
                       last: bool, e: SettlementEvent)
    requires bondId in weights && sum > 0
  {
    && bondId in l.bonds
    && e == SettlementEvent(Reward, epoch, l.bonds[bondId].owner, e.amount, l.asset, Name(bondId))
    && e.amount >= total * weights[bondId] / sum
    && (!last ==> e.amount == total * weights[bondId] / sum)
  }

  predicate FairRewards(l: Ledger, epoch: int, total: int, weights: map<string, int>, sum: int, rest: seq<string>,
                        events: seq<SettlementEvent>)
    requires sum > 0 && forall i :: 0 <= i < |rest| ==> rest[i] in weights
  {
    && |events| == |rest|
    && forall i :: 0 <= i < |rest| ==>
                     FairReward(l, epoch, total, weights, sum, rest[i], i == |rest| - 1, events[i])
  }

  ghost predicate PaidOut(l: Ledger, q: Ledger, events: seq<SettlementEvent>) {
    forall a :: q.BalanceOf(a) == l.BalanceOf(a) + Received(events, a)
  }

  lemma {:induction false} PaysFairly(l: Ledger, epoch: int, total: int, weights: map<string, int>, sum: int,
                                      rest: seq<string>, distributed: int)
    requires Paying(total, weights, sum, rest, distributed)
    requires l.PayRewards(epoch, total, weights, sum, rest, distributed).result.Ok?
    ensures var q := l.PayRewards(epoch, total, weights, sum, rest, distributed);
            && FairRewards(l, epoch, total, weights, sum, rest, q.result.value)
            && PaidOut(l, q.ledger, q.result.value)
            && (rest != [] ==> Paid(q.result.value) == total - distributed)
    decreases |rest|
  {
    if rest != [] {
      ShareFits(l, total, weights, sum, rest, distributed);
      ShareCovers(l, total, weights, sum, rest, distributed);
      hide Paying, Ledger.Share;
      var amount := l.Share(total, weights, sum, rest, distributed);
      var m := l.PayOne(epoch, rest[0], amount).ledger;
      var after := m.PayRewards(epoch, total, weights, sum, rest[1..], distributed + amount);
      PaysFairly(m, epoch, total, weights, sum, rest[1..], distributed + amount);
    }
  }

  /** A settled distribution: one reward per bond in order, in proportion to the weights, to the owners, from the treasury. */
  ghost predicate Distributed(l: Ledger, q: Ledger, epoch: int, total: int, weights: map<string, int>,
                              events: seq<SettlementEvent>)
    requires weights != map[] && forall b :: b in weights ==> weights[b] > 0
  {
    var ordered := SortedNames(weights.Keys);
    PositiveSum(weights);
    && FairRewards(l, epoch, total, weights, Sum(weights), ordered, events)
    && Paid(events) == total
    && forall a :: q.BalanceOf(a) == l.BalanceOf(a) + Received(events, a) - if a == l.treasury then total else 0
  }

  /** The payments inside a distribution that went through. */
  lemma DistributionPays(l: Ledger, epoch: int, total: int, weights: map<string, int>)
    requires l.DistributeRewards(epoch, total, weights).result.Ok?
    ensures Fundable(l, epoch, total, weights) && Sum(weights) > 0
    ensures var ordered := SortedNames(weights.Keys);
            && (forall i :: 0 <= i < |ordered| ==> ordered[i] in weights)
            && var d := l.Debit(l.treasury, total).ledger;
            var paid := d.PayRewards(epoch, total, weights, Sum(weights), ordered, 0);
            var q := l.DistributeRewards(epoch, total, weights);
            q.result == paid.result && q.ledger.balances == paid.ledger.balances
  {
    var ordered := SortedNames(weights.Keys);
    forall i | 0 <= i < |ordered| ensures ordered[i] in weights { assert ordered[i] in ordered; }
    PositiveSum(weights);
    hide SortedNames, Sum, Ledger.PayRewards;
  }

  lemma DebitedSame(l: Ledger, d: Ledger, q: Ledger, epoch: int, total: int, weights: map<string, int>, sum: int,
                    rest: seq<string>, events: seq<SettlementEvent>)
    requires sum > 0 && forall i :: 0 <= i < |rest| ==> rest[i] in weights
    requires d == l.(balances := l.balances[l.treasury := l.BalanceOf(l.treasury) - total])
    requires FairRewards(d, epoch, total, weights, sum, rest, events) && PaidOut(d, q, events)
    ensures FairRewards(l, epoch, total, weights, sum, rest, events)
    ensures forall a :: q.BalanceOf(a) == l.BalanceOf(a) + Received(events, a) - if a == l.treasury then total else 0
  {
    hide Received;
    forall i | 0 <= i < |rest| ensures FairReward(l, epoch, total, weights, sum, rest[i], i == |rest| - 1, events[i]) {
      assert FairReward(d, epoch, total, weights, sum, rest[i], i == |rest| - 1, events[i]);
    }
  }

  lemma DistributesFairly(l: Ledger, epoch: int, total: int, weights: map<string, int>)
    requires l.DistributeRewards(epoch, total, weights).result.Ok?
    ensures !l.RewardsRefused(epoch, total, weights)
    ensures var q := l.DistributeRewards(epoch, total, weights);
            Distributed(l, q.ledger, epoch, total, weights, q.result.value)
  {
    var d, ordered := l.Debit(l.treasury, total).ledger, SortedNames(weights.Keys);
    var q := l.DistributeRewards(epoch, total, weights);
    DistributionPays(l, epoch, total, weights);
    StartsPaying(l, epoch, total, weights);
    DebitFields(l, total);
    hide *;
    PaysFairly(d, epoch, total, weights, Sum(weights), ordered, 0);
    var paid := d.PayRewards(epoch, total, weights, Sum(weights), ordered, 0).ledger;
    SameBalances(d, paid, q.ledger, q.result.value);
    DebitedSame(l, d, q.ledger, epoch, total, weights, Sum(weights), ordered, q.result.value);
    FundablePositive(l, epoch, total, weights);
    IsDistributed(l, q.ledger, epoch, total, weights, q.result.value);
  }

  lemma FundablePositive(l: Ledger, epoch: int, total: int, weights: map<string, int>)
    requires Fundable(l, epoch, total, weights)
    ensures !l.RewardsRefused(epoch, total, weights) && weights != map[] && forall b :: b in weights ==> weights[b] > 0
  {}

  lemma DebitFields(l: Ledger, total: int)
    requires total > 0 && l.BalanceOf(l.treasury) >= total
    ensures l.Debit(l.treasury, total).ledger == l.(balances := l.balances[l.treasury := l.BalanceOf(l.treasury) - total])
  {}

  lemma IsDistributed(l: Ledger, q: Ledger, epoch: int, total: int, weights: map<string, int>, events: seq<SettlementEvent>)
    requires weights != map[] && (forall b :: b in weights ==> weights[b] > 0) && Sum(weights) > 0
    requires var ordered := SortedNames(weights.Keys);
             && (forall i :: 0 <= i < |ordered| ==> ordered[i] in weights)
             && FairRewards(l, epoch, total, weights, Sum(weights), ordered, events)
    requires Paid(events) == total
    requires forall a :: q.BalanceOf(a) == l.BalanceOf(a) + Received(events, a) - if a == l.treasury then total else 0
    ensures Distributed(l, q, epoch, total, weights, events)
  {
    hide SortedNames, Sum, FairRewards, Paid, Received, Ledger.BalanceOf;
  }

  lemma SameBalances(d: Ledger, p: Ledger, q: Ledger, events: seq<SettlementEvent>)
    requires PaidOut(d, p, events) && q.balances == p.balances
    ensures PaidOut(d, q, events)
  {}
}
