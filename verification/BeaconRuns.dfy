/**
 Coordinator-driven runs: finalizing a round is all or nothing, pays exactly what it should, and happens once.
 */
module BeaconRuns {
  import opened Results
  import opened Names
  import opened Settlement
  import opened Books
  import opened Rewards
  import opened Membership
  import opened MembershipRuns
  import opened Beacon
  import opened PenaltyRuns
  import opened RoundSettlements

  // ----- The invariant

  /** A non-reveal penalty on record belongs to a settled round. */
  ghost predicate EvidenceSettled(ids: set<Id>, settlements: map<(int, int), RoundSettlement>) {
    forall id :: id in ids && id.NonReveal? ==> (id.epoch, id.round) in settlements
  }

  /** The reward epoch of some settled round. */
  predicate KeyOfSettled(key: int, settlements: map<(int, int), RoundSettlement>) {
    exists p :: p in settlements && p.0 * REWARD_EPOCH_STRIDE + p.1 == key
  }

  ghost predicate RewardsSettled(keys: set<int>, settlements: map<(int, int), RoundSettlement>) {
    forall key :: key in keys ==> KeyOfSettled(key, settlements)
  }

  ghost predicate Coordinated(b: Rounds) {
    && Orderly(b.registry)
    && EvidenceSettled(b.registry.ledger.slashEvidenceIds, b.settlements)
    && EvidenceSettled(b.registry.nonRevealHistory, b.settlements)
    && RewardsSettled(b.registry.ledger.settledRewardEpochs, b.settlements)
  }

  lemma SilentFinable(b: Rounds, round: int)
    requires Coordinated(b) && b.Standing(round) && (b.registry.epoch, round) !in b.settlements
    ensures AllFinable(b.registry, SortedNames(b.Silent(round)), round)
  {
    hide Orderly, Finable, Rounds.Standing, Rounds.Silent, EvidenceSettled, SortedNames;
    var names := SortedNames(b.Silent(round));
    assert NoRepeats(names);
    forall i | 0 <= i < |names| ensures Finable(b.registry, names[i], round) {
      assert names[i] in names;
      OneFinable(b, round, names[i]);
    }
  }

  lemma OneFinable(b: Rounds, round: int, v: string)
    requires Coordinated(b) && b.Standing(round) && (b.registry.epoch, round) !in b.settlements && v in b.Silent(round)
    ensures Finable(b.registry, v, round)
  {
    hide Orderly, Rounds.Standing, Rounds.Silent, Registry.IsActive;
    SilentIsBacked(b, round, v);
    var id := NonReveal(b.registry.epoch, round, v);
    assert id.NonReveal? && (id.epoch, id.round) !in b.settlements;
  }

  lemma SilentIsBacked(b: Rounds, round: int, v: string)
    requires Orderly(b.registry) && b.Standing(round) && v in b.Silent(round)
    ensures b.registry.IsActive(v) && v in b.registry.bondOf && b.registry.bondOf[v] in b.registry.ledger.bonds
  {
    hide Sound, ExitsKnown, Coupled, Rounds.Committed, Rounds.Revealed;
    BackedBond(b.registry, v);
  }

  // ----- Rounds that share a reward epoch

  function RewardKey(b: Rounds, round: int): int { b.registry.epoch * REWARD_EPOCH_STRIDE + round }

  predicate PaysRewards(b: Rounds, round: int, reward: int) { reward != 0 && b.Revealed(round) != {} }

  /** The ledger has settled the reward epoch the round would pay from. */
  predicate Collides(b: Rounds, round: int, reward: int) {
    PaysRewards(b, round, reward) && RewardKey(b, round) in b.registry.ledger.settledRewardEpochs
  }

  /** A collision is with another settled round, of another epoch, a multiple of the stride away. */
  lemma CollisionIsWithAnotherRound(b: Rounds, round: int, reward: int)
    requires Coordinated(b) && Collides(b, round, reward) && (b.registry.epoch, round) !in b.settlements
    ensures exists p :: p in b.settlements && p.0 != b.registry.epoch
                        && p.1 - round == (b.registry.epoch - p.0) * REWARD_EPOCH_STRIDE
  {
    hide Orderly;
    var p :| p in b.settlements && p.0 * REWARD_EPOCH_STRIDE + p.1 == RewardKey(b, round);
    assert p.0 == b.registry.epoch ==> p == (b.registry.epoch, round);
  }

  /** Rounds below the stride never collide with one another. */
  lemma BelowStrideNoCollision(b: Rounds, round: int, reward: int)
    requires Coordinated(b) && 0 <= round < REWARD_EPOCH_STRIDE && (b.registry.epoch, round) !in b.settlements
    requires forall p :: p in b.settlements ==> 0 <= p.1 < REWARD_EPOCH_STRIDE
    ensures !Collides(b, round, reward)
  {
    if Collides(b, round, reward) { CollisionIsWithAnotherRound(b, round, reward); }
    hide Orderly;
  }

  // ----- The penalties

  function SilentNames(b: Rounds, round: int): seq<string> { SortedNames(b.Silent(round)) }

  /** The registry after the penalties of the round. */
  ghost predicate Fined(b: Rounds, round: int, penalty: int, q: Registry)
    requires AllFinable(b.registry, SilentNames(b, round), round)
  {
    if penalty > 0 then Taken(b.registry, SilentNames(b, round), round, penalty, q) else q == b.registry
  }

  lemma PenaltiesPass(b: Rounds, round: int, penalty: int)
    requires Coordinated(b) && b.Standing(round) && (b.registry.epoch, round) !in b.settlements && penalty >= 0
    ensures AllFinable(b.registry, SilentNames(b, round), round)
    ensures var p := b.Penalties(round, penalty);
            && p.ok && Orderly(p.registry) && StaysTimely(b.registry, p.registry)
            && Balance(p.registry.ledger) == Balance(b.registry.ledger)
            && Fined(b, round, penalty, p.registry)
  {
    hide Orderly, Timely, Balance, AllFinable, Taken, SortedNames, PenalizeAll, Rounds.Standing, Rounds.Silent, EvidenceSettled,
         RewardsSettled;
    SilentFinable(b, round);
    if penalty > 0 { PenaltiesGoThrough(b.registry, SilentNames(b, round), round, penalty); }
  }

  lemma {:induction false} FinesNonNegative(r: Registry, vs: seq<string>, penalty: int)
    requires Clean(r.ledger) && penalty >= 0
    requires forall i :: 0 <= i < |vs| ==> vs[i] in r.bondOf && r.bondOf[vs[i]] in r.ledger.bonds
    ensures Fines(r, vs, penalty) >= 0
  {
    if vs != [] {
      BondOf(r.ledger, r.bondOf[vs[0]]);
      FinesNonNegative(r, vs[1..], penalty);
    }
  }

  /** What the penalties leave alone. */
  lemma FinedFields(b: Rounds, round: int, penalty: int, q: Registry)
    requires Clean(b.registry.ledger) && AllFinable(b.registry, SilentNames(b, round), round)
    requires Fined(b, round, penalty, q)
    ensures var r := b.registry;
            && q.epoch == r.epoch && q.bondOf == r.bondOf && q.records.Keys == r.records.Keys
            && q.ledger.treasury == r.ledger.treasury && q.ledger.asset == r.ledger.asset
            && q.ledger.settledRewardEpochs == r.ledger.settledRewardEpochs
            && q.ledger.BalanceOf(r.ledger.treasury) >= r.ledger.BalanceOf(r.ledger.treasury)
            && q.ledger.bonds.Keys == r.ledger.bonds.Keys
  {
    if penalty > 0 { FinesNonNegative(b.registry, SilentNames(b, round), penalty); }
    hide Clean, Fines, DockedOrSame, SilentNames;
  }

  /** Revealers' bonds are not touched by the penalties. */
  lemma RevealerBonds(b: Rounds, round: int, penalty: int, q: Registry, v: string)
    requires Coupled(b.registry) && AllFinable(b.registry, SilentNames(b, round), round)
    requires Fined(b, round, penalty, q) && v in b.registry.records && v !in b.Silent(round)
    ensures v in b.registry.bondOf && b.registry.bondOf[v] in b.registry.ledger.bonds
    ensures b.registry.bondOf[v] in q.ledger.bonds
            && q.ledger.bonds[b.registry.bondOf[v]] == b.registry.ledger.bonds[b.registry.bondOf[v]]
    ensures v in q.records && q.records[v] == b.registry.records[v]
  {
    BackedBond(b.registry, v);
    var names := SilentNames(b, round);
    assert v !in names;
    if penalty > 0 {
      forall w | w in names ensures b.registry.bondOf[w] != b.registry.bondOf[v] {
        assert Finable(b.registry, w, round);
        assert Unshared(b.registry.bondOf);
      }
      assert DockedOrSame(b.registry, q, names, penalty, v);
    }
    hide Coupled, SilentNames, Fines, DockedPosition;
  }

  lemma SilentBonds(b: Rounds, round: int, penalty: int, q: Registry, v: string)
    requires Sound(b.registry.ledger) && Coupled(b.registry) && AllFinable(b.registry, SilentNames(b, round), round)
    requires Fined(b, round, penalty, q) && v in b.Silent(round) && penalty >= 0
    ensures v in b.registry.records && v in b.registry.bondOf && b.registry.bondOf[v] in b.registry.ledger.bonds
    ensures v in q.records && b.registry.bondOf[v] in q.ledger.bonds
    ensures var amount := b.registry.ledger.bonds[b.registry.bondOf[v]].amount;
            && b.registry.records[v].stake == amount
            && q.ledger.bonds[b.registry.bondOf[v]].amount == amount - Min(penalty, amount)
            && q.records[v].stake == amount - Min(penalty, amount)
  {
    hide Sound, Coupled, Finable, Taken, NoRepeats, Registry.IsActive;
    var names := SilentNames(b, round);
    assert v in names;
    FinableFacts(b.registry, names, round, v);
    BackedBond(b.registry, v);
    StakeNonNegative(b.registry, v);
    if penalty > 0 { TakenFrom(b.registry, names, round, penalty, q, v); }
    hide SilentNames, AllFinable;
  }

  lemma FinableFacts(r: Registry, names: seq<string>, round: int, v: string)
    requires AllFinable(r, names, round) && v in names
    ensures v in r.records && v in r.bondOf && r.bondOf[v] in r.ledger.bonds
  {
    assert Finable(r, v, round);
    hide NoRepeats;
  }

  lemma TakenFrom(r: Registry, names: seq<string>, round: int, penalty: int, q: Registry, v: string)
    requires AllFinable(r, names, round) && Taken(r, names, round, penalty, q) && v in names
    requires v in r.records && v in r.bondOf && r.bondOf[v] in r.ledger.bonds
    ensures v in q.records && q.records[v] == DockedRecord(r.records[v], penalty)
    ensures r.bondOf[v] in q.ledger.bonds
    ensures q.ledger.bonds[r.bondOf[v]] == DockedPosition(r.ledger.bonds[r.bondOf[v]], penalty)
  {
    assert DockedOrSame(r, q, names, penalty, v);
    hide AllFinable, Fines, DockedPosition, DockedRecord;
  }

  // ----- The rewards

  /** The ledger after the rewards of the round, if it pays any. */
  ghost predicate Rewarded(b: Rounds, r: Registry, round: int, reward: int, q: Ledger)
    requires b.Revealed(round) <= r.bondOf.Keys && AllKnown(r.ledger, Recipients(r, b.Revealed(round)))
  {
    if PaysRewards(b, round, reward) then RewardsPaid(r, b.Revealed(round), RewardKey(b, round), reward, q) else q == r.ledger
  }

  lemma RewardsPass(b: Rounds, r: Registry, round: int, reward: int)
    requires Orderly(r) && r.epoch == b.registry.epoch && b.Revealed(round) <= r.bondOf.Keys && reward >= 0
    requires PaysRewards(b, round, reward) ==> RewardKey(b, round) !in r.ledger.settledRewardEpochs
    requires reward != 0 ==> r.ledger.BalanceOf(r.ledger.treasury) >= reward * |b.Revealed(round)|
    ensures AllKnown(r.ledger, Recipients(r, b.Revealed(round)))
    ensures var paid := b.Rewards(r, round, reward);
            && paid.result.Ok? && Sound(paid.ledger) && Balance(paid.ledger) == Balance(r.ledger)
            && Rewarded(b, r, round, reward, paid.ledger)
  {
    hide Sound, Coupled, ExitsKnown, Balance, Ledger.DistributeRewards, Rounds.Revealed, RewardsPaid, AllKnown,
         Recipients, BondsOf, EqualWeights;
    RecipientsKnown(r, b.Revealed(round));
    if PaysRewards(b, round, reward) { RewardsGoThrough(r, b.Revealed(round), RewardKey(b, round), reward); }
  }

  lemma RewardedFields(b: Rounds, r: Registry, round: int, reward: int, q: Ledger)
    requires b.Revealed(round) <= r.bondOf.Keys && AllKnown(r.ledger, Recipients(r, b.Revealed(round)))
    requires Rewarded(b, r, round, reward, q)
    ensures q.bonds == r.ledger.bonds && q.slashEvidenceIds == r.ledger.slashEvidenceIds
    ensures q.settledRewardEpochs <= r.ledger.settledRewardEpochs + {RewardKey(b, round)}
    ensures r.ledger.events <= q.events && forall e :: e in q.events && e !in r.ledger.events ==> e.kind == Reward
  {
    hide Rounds.Revealed, AllKnown, Recipients, Owned;
  }

  lemma RewardsKeepOrder(r: Registry, l: Ledger)
    requires Orderly(r) && Sound(l) && l.bonds == r.ledger.bonds
    requires r.ledger.events <= l.events && forall e :: e in l.events && e !in r.ledger.events ==> e.kind == Reward
    ensures Orderly(r.(ledger := l)) && StaysTimely(r, r.(ledger := l))
  {
    var q := r.(ledger := l);
    SameBonds(r, q);
    if Timely(r) {
      forall e | e in l.events ensures Spread(q, e) {
        if e in r.ledger.events { assert Spread(r, e); } else { OtherKind(q, e); }
      }
    }
    hide Sound, Coupled, ExitsKnown, Spread;
  }

  // ----- Finalizing

  /** Exactly what a settled round moves: fines from silent validators, rewards to the owners of revealers' bonds. */
  ghost predicate RoundPaid(b: Rounds, round: int, reward: int, penalty: int, q: Registry)
    requires Coordinated(b) && b.Standing(round) && AllFinable(b.registry, SilentNames(b, round), round)
    requires AllKnown(b.registry.ledger, Recipients(b.registry, b.Revealed(round)))
  {
    var r, l, names := b.registry, b.registry.ledger, Recipients(b.registry, b.Revealed(round));
    && q.bondOf == r.bondOf && q.epoch == r.epoch && q.records.Keys == r.records.Keys && q.ledger.bonds.Keys == l.bonds.Keys
    && (forall v :: v in r.records ==> ValidatorPaid(b, round, penalty, q, v))
    && (forall a :: q.ledger.BalanceOf(a) == l.BalanceOf(a) + reward * Owned(l.bonds, names, a)
                    + if a == l.treasury then TotalFines(b, round, penalty) - reward * |b.Revealed(round)| else 0)
    && (reward > 0 ==> forall i :: 0 <= i < |names| ==>
          l.NewEvent(Reward, RewardKey(b, round), l.bonds[names[i]].owner, reward, Name(names[i])) in q.ledger.events)
  }

  function TotalFines(b: Rounds, round: int, penalty: int): int
    requires AllFinable(b.registry, SilentNames(b, round), round)
  {
    if penalty > 0 then Fines(b.registry, SilentNames(b, round), penalty) else 0
  }

  /** A silent validator loses the fine from stake and bond alike; every other one keeps both. */
  predicate ValidatorPaid(b: Rounds, round: int, penalty: int, q: Registry, v: string)
    requires v in b.registry.records && v in q.records
  {
    && v in b.registry.bondOf && b.registry.bondOf[v] in b.registry.ledger.bonds
    && b.registry.bondOf[v] in q.ledger.bonds
    && var was, now := b.registry.ledger.bonds[b.registry.bondOf[v]], q.ledger.bonds[b.registry.bondOf[v]];
    if v in b.Silent(round)
    then now.amount == was.amount - Min(penalty, was.amount) && q.records[v].stake == now.amount
    else now == was && q.records[v] == b.registry.records[v]
  }

  lemma ValidatorsPaid(b: Rounds, round: int, penalty: int, m: Registry, q: Registry)
    requires Coordinated(b) && AllFinable(b.registry, SilentNames(b, round), round) && penalty >= 0
    requires Fined(b, round, penalty, m) && q == m.(ledger := q.ledger) && q.ledger.bonds == m.ledger.bonds
    ensures forall v :: v in b.registry.records ==> v in q.records && ValidatorPaid(b, round, penalty, q, v)
  {
    assert Sound(b.registry.ledger) && Coupled(b.registry);
    hide Coordinated, Orderly, Sound, Coupled, AllFinable, Fined, Rounds.Silent;
    forall v | v in b.registry.records ensures v in q.records && ValidatorPaid(b, round, penalty, q, v) {
      if v in b.Silent(round) {
        SilentBonds(b, round, penalty, m, v);
      } else {
        RevealerBonds(b, round, penalty, m, v);
      }
    }
  }

  lemma {:induction false} OwnedSame(bonds: map<string, BondPosition>, bonds': map<string, BondPosition>,
                                     names: seq<string>, a: string)
    requires forall i :: 0 <= i < |names| ==> names[i] in bonds && names[i] in bonds' && bonds[names[i]] == bonds'[names[i]]
    ensures Owned(bonds, names, a) == Owned(bonds', names, a)
  {
    if names != [] { OwnedSame(bonds, bonds', names[1..], a); }
  }

  /** The recipients' bonds after the fines are as they were before. */
  lemma RecipientBonds(b: Rounds, round: int, penalty: int, m: Registry)
    requires Coordinated(b) && b.Standing(round) && AllFinable(b.registry, SilentNames(b, round), round)
    requires Fined(b, round, penalty, m)
    ensures m.bondOf == b.registry.bondOf && Recipients(m, b.Revealed(round)) == Recipients(b.registry, b.Revealed(round))
    ensures AllKnown(b.registry.ledger, Recipients(b.registry, b.Revealed(round)))
    ensures var names := Recipients(b.registry, b.Revealed(round));
            forall i :: 0 <= i < |names| ==> names[i] in m.ledger.bonds
                                             && m.ledger.bonds[names[i]] == b.registry.ledger.bonds[names[i]]
  {
    assert Clean(b.registry.ledger) && Coupled(b.registry) && b.Revealed(round) <= b.registry.bondOf.Keys;
    FinedFields(b, round, penalty, m);
    hide Coordinated, Orderly, Sound, Clean, AllFinable, Fined, Rounds.Committed, Rounds.Revealed, SortedNames;
    RecipientsKnown(b.registry, b.Revealed(round));
    var names := Recipients(b.registry, b.Revealed(round));
    forall i | 0 <= i < |names|
      ensures names[i] in m.ledger.bonds && m.ledger.bonds[names[i]] == b.registry.ledger.bonds[names[i]]
    {
      assert names[i] in names;
      var v :| v in b.Revealed(round) && b.registry.bondOf[v] == names[i];
      assert v !in b.Silent(round);
      RevealerBonds(b, round, penalty, m, v);
    }
  }

  lemma AccountsPaid(b: Rounds, round: int, reward: int, penalty: int, m: Registry, l: Ledger)
    requires Coordinated(b) && b.Standing(round) && AllFinable(b.registry, SilentNames(b, round), round) && reward >= 0
    requires Fined(b, round, penalty, m) && penalty >= 0
    requires b.Revealed(round) <= m.bondOf.Keys && AllKnown(m.ledger, Recipients(m, b.Revealed(round)))
    requires Rewarded(b, m, round, reward, l)
    requires AllKnown(b.registry.ledger, Recipients(b.registry, b.Revealed(round)))
    ensures var before, names := b.registry.ledger, Recipients(b.registry, b.Revealed(round));
            forall a :: l.BalanceOf(a) == before.BalanceOf(a) + reward * Owned(before.bonds, names, a)
                        + if a == before.treasury then TotalFines(b, round, penalty) - reward * |b.Revealed(round)| else 0
  {
    hide Orderly, Clean, AllFinable, Fined, Rounds.Revealed, Rounds.Standing, Recipients, TotalFines, Owned,
         SilentNames, Ledger.BalanceOf, EvidenceSettled, RewardsSettled;
    StandingRevealed(b, round);
    var before, names := b.registry.ledger, Recipients(b.registry, b.Revealed(round));
    CleanOf(b.registry);
    RecipientBonds(b, round, penalty, m);
    FinedFields(b, round, penalty, m);
    FinedBalances(b, round, penalty, m);
    NoRecipients(b, round);
    hide Coordinated;
    forall a ensures l.BalanceOf(a) == before.BalanceOf(a) + reward * Owned(before.bonds, names, a)
                     + if a == before.treasury then TotalFines(b, round, penalty) - reward * |b.Revealed(round)| else 0 {
      OwnedSame(before.bonds, m.ledger.bonds, names, a);
      OwnedNone(before.bonds, names, a);
    }
  }

  lemma OwnedNone(bonds: map<string, BondPosition>, names: seq<string>, a: string)
    requires forall i :: 0 <= i < |names| ==> names[i] in bonds
    ensures names == [] ==> Owned(bonds, names, a) == 0
  {}

  lemma NoRecipients(b: Rounds, round: int)
    requires b.Standing(round)
    ensures b.Revealed(round) == {} ==> Recipients(b.registry, b.Revealed(round)) == []
  {
    if b.Revealed(round) == {} { assert BondsOf(b.registry, b.Revealed(round)) == {}; }
  }

  lemma FinedBalances(b: Rounds, round: int, penalty: int, m: Registry)
    requires AllFinable(b.registry, SilentNames(b, round), round) && Fined(b, round, penalty, m)
    ensures forall a :: m.ledger.BalanceOf(a) == b.registry.ledger.BalanceOf(a)
                                                 + if a == b.registry.ledger.treasury then TotalFines(b, round, penalty) else 0
  {
    hide SilentNames, Fines, AllFinable;
  }

  /** The fines, then the rewards: neither raises once the round may be settled. */
  lemma Stages(b: Rounds, round: int, reward: int, penalty: int) returns (m: Registry, l: Ledger)
    requires Coordinated(b) && !Collides(b, round, reward)
    requires (b.registry.epoch, round) !in b.settlements && b.Settleable(round, reward, penalty)
    ensures AllFinable(b.registry, SilentNames(b, round), round) && Fined(b, round, penalty, m)
    ensures Orderly(m) && StaysTimely(b.registry, m) && Sound(l) && Balance(l) == Balance(b.registry.ledger)
    ensures b.Revealed(round) <= m.bondOf.Keys && AllKnown(m.ledger, Recipients(m, b.Revealed(round)))
    ensures Rewarded(b, m, round, reward, l)
    ensures var o := b.Finalize(round, reward, penalty);
            && o.result.Ok?
            && o.rounds == b.(registry := m.(ledger := l),
                              settlements := b.settlements[(b.registry.epoch, round) := o.result.value])
  {
    hide Orderly, Timely, Balance, AllFinable, Rounds.Standing, Rounds.Revealed, Rounds.BeaconOf, EvidenceSettled,
         RewardsSettled, Fined, Rewarded, AllKnown, Recipients, Rounds.Penalties, Rounds.Rewards, SilentNames;
    PenaltiesPass(b, round, penalty);
    m := b.Penalties(round, penalty).registry;
    CleanOf(b.registry);
    FinedFields(b, round, penalty, m);
    StandingRevealed(b, round);
    hide Coordinated;
    RewardsPass(b, m, round, reward);
    l := b.Rewards(m, round, reward).ledger;
  }

  lemma SettlesExactly(b: Rounds, round: int, reward: int, penalty: int)
    requires Coordinated(b) && !Collides(b, round, reward)
    requires (b.registry.epoch, round) !in b.settlements && b.Settleable(round, reward, penalty)
    ensures b.Standing(round) && AllFinable(b.registry, SilentNames(b, round), round)
    ensures AllKnown(b.registry.ledger, Recipients(b.registry, b.Revealed(round)))
    ensures var o := b.Finalize(round, reward, penalty);
            && o.result.Ok? && o.rounds.settlements == b.settlements[(b.registry.epoch, round) := o.result.value]
            && Balance(o.rounds.registry.ledger) == Balance(b.registry.ledger)
            && RoundPaid(b, round, reward, penalty, o.rounds.registry)
            && o.rounds.registry.epoch == b.registry.epoch
  {
    hide Orderly, Balance, AllFinable, Rounds.Standing, Rounds.Revealed, Rounds.BeaconOf, EvidenceSettled, RewardsSettled,
         Fined, Rewarded, AllKnown, Recipients, Ledger.BalanceOf, RoundPaid, SilentNames, Rounds.Finalize, Coordinated;
    var m, l := Stages(b, round, reward, penalty);
    CleanOfRounds(b);
    FinedFields(b, round, penalty, m);
    RecipientBonds(b, round, penalty, m);
    FinishRound(b, round, reward, penalty, m, l);
    SameBalance(m, l);
  }

  lemma SameBalance(m: Registry, l: Ledger)
    ensures Balance(m.(ledger := l).ledger) == Balance(l)
  {}

  lemma CleanOfRounds(b: Rounds)
    requires Coordinated(b)
    ensures Clean(b.registry.ledger)
  {
    CleanOf(b.registry);
    hide Orderly;
  }

  lemma CleanOf(r: Registry)
    requires Orderly(r)
    ensures Clean(r.ledger)
  {
    hide Coupled, ExitsKnown, Clean, AllRemembered;
  }

  lemma StandingRevealed(b: Rounds, round: int)
    requires b.Standing(round)
    ensures b.Revealed(round) <= b.registry.bondOf.Keys
  {}

  lemma FinishRound(b: Rounds, round: int, reward: int, penalty: int, m: Registry, l: Ledger)
    requires Coordinated(b) && b.Standing(round) && AllFinable(b.registry, SilentNames(b, round), round) && reward >= 0
    requires Fined(b, round, penalty, m) && penalty >= 0
    requires b.Revealed(round) <= m.bondOf.Keys && AllKnown(m.ledger, Recipients(m, b.Revealed(round)))
    requires Rewarded(b, m, round, reward, l)
    requires AllKnown(b.registry.ledger, Recipients(b.registry, b.Revealed(round)))
    ensures RoundPaid(b, round, reward, penalty, m.(ledger := l))
  {
    hide Orderly, Clean, AllFinable, Fined, Rounds.Revealed, Rounds.Standing, Recipients, TotalFines, Owned, Rewarded,
         SilentNames, ValidatorPaid, Ledger.BalanceOf, AllKnown, EvidenceSettled, RewardsSettled;
    CleanOf(b.registry);
    FinedFields(b, round, penalty, m);
    RewardedFields(b, m, round, reward, l);
    ValidatorsPaid(b, round, penalty, m, m.(ledger := l));
    AccountsPaid(b, round, reward, penalty, m, l);
    RewardEventsPaid(b, round, reward, penalty, m, l);
  }

  lemma RewardEventsPaid(b: Rounds, round: int, reward: int, penalty: int, m: Registry, l: Ledger)
    requires Coordinated(b) && b.Standing(round) && AllFinable(b.registry, SilentNames(b, round), round) && reward >= 0
    requires Fined(b, round, penalty, m) && penalty >= 0
    requires b.Revealed(round) <= m.bondOf.Keys && AllKnown(m.ledger, Recipients(m, b.Revealed(round)))
    requires Rewarded(b, m, round, reward, l)
    requires AllKnown(b.registry.ledger, Recipients(b.registry, b.Revealed(round)))
    ensures var before, names := b.registry.ledger, Recipients(b.registry, b.Revealed(round));
            reward > 0 ==> forall i :: 0 <= i < |names| ==>
              before.NewEvent(Reward, RewardKey(b, round), before.bonds[names[i]].owner, reward, Name(names[i])) in l.events
  {
    hide Orderly, Clean, AllFinable, Fined, Rounds.Revealed, Rounds.Standing, Recipients, Owned,
         SilentNames, Ledger.BalanceOf, EvidenceSettled, RewardsSettled;
    CleanOf(b.registry);
    FinedFields(b, round, penalty, m);
    RecipientBonds(b, round, penalty, m);
    NoRecipients(b, round);
    hide Coordinated, AllKnown;
  }

  // ----- The invariant is kept

  lemma EvidenceStays(ids: set<Id>, settlements: map<(int, int), RoundSettlement>, ids': set<Id>, epoch: int, round: int,
                      settlement: RoundSettlement)
    requires EvidenceSettled(ids, settlements)
    requires forall id :: id in ids' && id !in ids && id.NonReveal? ==> id.epoch == epoch && id.round == round
    ensures EvidenceSettled(ids', settlements[(epoch, round) := settlement])
  {}

  lemma RewardsStay(keys: set<int>, settlements: map<(int, int), RoundSettlement>, keys': set<int>, epoch: int, round: int,
                    settlement: RoundSettlement)
    requires RewardsSettled(keys, settlements) && keys' <= keys + {epoch * REWARD_EPOCH_STRIDE + round}
    ensures RewardsSettled(keys', settlements[(epoch, round) := settlement])
  {
    var settlements' := settlements[(epoch, round) := settlement];
    forall key | key in keys' ensures KeyOfSettled(key, settlements') {
      if key in keys {
        var p :| p in settlements && p.0 * REWARD_EPOCH_STRIDE + p.1 == key;
        assert p in settlements';
      } else {
        assert (epoch, round) in settlements';
      }
    }
  }

  lemma FinedEvidence(b: Rounds, round: int, penalty: int, m: Registry)
    requires AllFinable(b.registry, SilentNames(b, round), round) && Fined(b, round, penalty, m)
    ensures forall id :: id in m.ledger.slashEvidenceIds && id !in b.registry.ledger.slashEvidenceIds ==>
                           id.NonReveal? && id.epoch == b.registry.epoch && id.round == round
    ensures forall id :: id in m.nonRevealHistory && id !in b.registry.nonRevealHistory ==>
                           id.NonReveal? && id.epoch == b.registry.epoch && id.round == round
  {
    hide AllFinable, SilentNames, Fines;
  }

  lemma FinalizeKeeps(b: Rounds, round: int, reward: int, penalty: int)
    requires Coordinated(b) && !Collides(b, round, reward)
    requires (b.registry.epoch, round) !in b.settlements && b.Settleable(round, reward, penalty)
    ensures var c := b.Finalize(round, reward, penalty).rounds; Coordinated(c) && StaysTimely(b.registry, c.registry)
  {
    hide Orderly, Timely, Balance, AllFinable, Rounds.Standing, Rounds.Revealed, Rounds.BeaconOf, EvidenceSettled,
         RewardsSettled, Fined, Rewarded, AllKnown, Recipients, Ledger.BalanceOf, SilentNames, Rounds.Finalize, Coordinated;
    var m, l := Stages(b, round, reward, penalty);
    CleanOfRounds(b);
    FinedFields(b, round, penalty, m);
    FinedEvidence(b, round, penalty, m);
    RewardedFields(b, m, round, reward, l);
    RewardsKeepOrder(m, l);
    FinalizedTables(b, round, reward, penalty, m, l);
  }

  lemma FinalizedTables(b: Rounds, round: int, reward: int, penalty: int, m: Registry, l: Ledger)
    requires Coordinated(b)
    requires var o := b.Finalize(round, reward, penalty);
             && o.result.Ok? && o.rounds.settlements == b.settlements[(b.registry.epoch, round) := o.result.value]
             && Orderly(o.rounds.registry) && o.rounds.registry == m.(ledger := l)
    requires l.slashEvidenceIds == m.ledger.slashEvidenceIds
    requires l.settledRewardEpochs <= b.registry.ledger.settledRewardEpochs + {RewardKey(b, round)}
    requires forall id :: id in m.ledger.slashEvidenceIds && id !in b.registry.ledger.slashEvidenceIds ==>
                            id.NonReveal? && id.epoch == b.registry.epoch && id.round == round
    requires forall id :: id in m.nonRevealHistory && id !in b.registry.nonRevealHistory ==>
                            id.NonReveal? && id.epoch == b.registry.epoch && id.round == round
    ensures Coordinated(b.Finalize(round, reward, penalty).rounds)
  {
    hide Orderly, EvidenceSettled, RewardsSettled, Rounds.Finalize;
    var o := b.Finalize(round, reward, penalty);
    EvidenceStays(b.registry.ledger.slashEvidenceIds, b.settlements, l.slashEvidenceIds, b.registry.epoch, round, o.result.value);
    EvidenceStays(b.registry.nonRevealHistory, b.settlements, m.nonRevealHistory, b.registry.epoch, round, o.result.value);
    RewardsStay(b.registry.ledger.settledRewardEpochs, b.settlements, l.settledRewardEpochs, b.registry.epoch, round,
                o.result.value);
  }

  /** On a collision the fines are taken before the rewards are refused. */
  lemma CollisionRefused(b: Rounds, round: int, reward: int, penalty: int)
    requires Coordinated(b) && (b.registry.epoch, round) !in b.settlements && b.Settleable(round, reward, penalty)
    requires Collides(b, round, reward)
    ensures AllFinable(b.registry, SilentNames(b, round), round)
    ensures var o := b.Finalize(round, reward, penalty);
            && o.result.Err? && o.rounds == b.(registry := o.rounds.registry)
            && Fined(b, round, penalty, o.rounds.registry)
            && o.rounds.registry == b.Penalties(round, penalty).registry
  {
    hide Orderly, Balance, AllFinable, Rounds.Standing, Rounds.Revealed, Rounds.BeaconOf, EvidenceSettled, RewardsSettled,
         Fined, Rounds.Penalties, SilentNames;
    PenaltiesPass(b, round, penalty);
    var m := b.Penalties(round, penalty).registry;
    CleanOf(b.registry);
    FinedFields(b, round, penalty, m);
    StandingRevealed(b, round);
    hide Coordinated;
    RewardsRefusedFor(b, m, round, reward);
  }

  lemma RewardsRefusedFor(b: Rounds, r: Registry, round: int, reward: int)
    requires b.Revealed(round) <= r.bondOf.Keys && PaysRewards(b, round, reward) && r.epoch == b.registry.epoch
    requires RewardKey(b, round) in r.ledger.settledRewardEpochs
    ensures b.Rewards(r, round, reward).result.Err? && b.Rewards(r, round, reward).ledger == r.ledger
  {
    hide Rounds.Revealed, Ledger.PayRewards, Ledger.Debit, EqualWeights, BondsOf, SortedNames;
  }

  /** Fines of anybody leave a trace. */
  lemma FinesShow(b: Rounds, round: int, penalty: int)
    requires AllFinable(b.registry, SilentNames(b, round), round) && penalty >= 0
    requires Fined(b, round, penalty, b.Penalties(round, penalty).registry)
    ensures b.Penalties(round, penalty).registry == b.registry <==> penalty == 0 || b.Silent(round) == {}
  {
    if penalty > 0 && b.Silent(round) != {} {
      SomebodyTaken(b.registry, SilentNames(b, round), round, penalty, b.Penalties(round, penalty).registry);
    }
    hide Taken, Rounds.Silent, AllFinable;
  }

  lemma SomebodyTaken(r: Registry, names: seq<string>, round: int, penalty: int, q: Registry)
    requires AllFinable(r, names, round) && Taken(r, names, round, penalty, q) && names != []
    ensures q != r
  {
    assert Finable(r, names[0], round);
    assert NonReveal(r.epoch, round, names[0]) in Evidence(r, names, round);
  }

  /**
   Finalizing a round that is not settled raises with nothing changed exactly when its checks fail, or when the reward
   epoch it pays from is settled and it fines nobody; it raises with the fines taken when it does fine somebody then;
   in every other case it pays exactly what the round owes. Once it has returned, finalizing the same round again, with
   any amounts, returns the same and changes nothing.
   */
  lemma FinalizeAllOrNothing(b: Rounds, round: int, reward: int, penalty: int)
    requires Coordinated(b)
    ensures var o := b.Finalize(round, reward, penalty);
            if (b.registry.epoch, round) in b.settlements then o == Rounded(b, Ok(b.settlements[(b.registry.epoch, round)]))
            else if !b.Settleable(round, reward, penalty) then o == Rounded(b, Err(BeaconRoundError))
            else if Collides(b, round, reward) then
              && o.result.Err? && o.rounds == b.(registry := o.rounds.registry)
              && AllFinable(b.registry, SilentNames(b, round), round)
              && Fined(b, round, penalty, o.rounds.registry)
              && (o.rounds == b <==> penalty == 0 || b.Silent(round) == {})
            else
              && o.result.Ok? && Coordinated(o.rounds) && StaysTimely(b.registry, o.rounds.registry)
              && Balance(o.rounds.registry.ledger) == Balance(b.registry.ledger)
              && AllFinable(b.registry, SilentNames(b, round), round)
              && AllKnown(b.registry.ledger, Recipients(b.registry, b.Revealed(round)))
              && RoundPaid(b, round, reward, penalty, o.rounds.registry)
              && forall x, y :: o.rounds.Finalize(round, x, y) == o
  {
    hide Coordinated, Rounds.Settleable, RoundPaid, AllFinable, AllKnown, Balance, Rounds.Revealed, Rounds.Standing,
         Rounds.Penalties, Rounds.Rewards, Rounds.BeaconOf, Recipients, Collides, Fined, SilentNames, Rounds.Silent;
    if (b.registry.epoch, round) !in b.settlements && b.Settleable(round, reward, penalty) {
      if Collides(b, round, reward) {
        CollisionRefused(b, round, reward, penalty);
        PenaltyNonNegative(b, round, reward, penalty);
        hide Rounds.Finalize;
        FinesShow(b, round, penalty);
      } else {
        SettlesExactly(b, round, reward, penalty);
        FinalizeKeeps(b, round, reward, penalty);
        hide Rounds.Finalize;
        var o := b.Finalize(round, reward, penalty);
        forall x, y ensures o.rounds.Finalize(round, x, y) == o { AlreadySettled(o.rounds, round, x, y); }
      }
    }
  }

  lemma PenaltyNonNegative(b: Rounds, round: int, reward: int, penalty: int)
    requires b.Settleable(round, reward, penalty)
    ensures penalty >= 0
  {
    hide Rounds.BeaconOf, Rounds.Standing;
  }

  lemma AlreadySettled(b: Rounds, round: int, reward: int, penalty: int)
    requires (b.registry.epoch, round) in b.settlements
    ensures b.Finalize(round, reward, penalty) == Rounded(b, Ok(b.settlements[(b.registry.epoch, round)]))
  {}
}
