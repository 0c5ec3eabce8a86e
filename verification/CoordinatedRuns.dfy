/**
 Runs that mix membership, ledger and beacon rounds.
 */
module CoordinatedRuns {
  import opened Results
  import opened Names
  import opened Settlement
  import opened Books
  import opened Rewards
  import opened Membership
  import opened MembershipRuns
  import opened PenaltyRuns
  import opened Beacon
  import opened BeaconRuns

  datatype RoundOp =
    | Members(op: MemberOp)
    | SubmitCommitment(c: Commitment)
    | SubmitReveal(r: Reveal)
    | Finalize(round: int, reward: int, penalty: int)

  ghost function DoRound(b: Rounds, op: RoundOp): Rounds {
    match op
    case Members(m) => b.(registry := Do(b.registry, m))
    case SubmitCommitment(c) => b.SubmitCommitment(c).rounds
    case SubmitReveal(r) => b.SubmitReveal(r).rounds
    case Finalize(round, reward, penalty) => b.Finalize(round, reward, penalty).rounds
  }

  ghost predicate MayDoRound(b: Rounds, op: RoundOp) {
    && (op.Members? ==> MayDo(b.registry, op.op))
    && (op.Finalize? ==> !FinalizeParts(b, op.round, op.reward, op.penalty))
  }

  /** Membership and money operations add no non-reveal evidence and settle no reward epoch. */
  predicate LeavesRounds(r: Registry, q: Registry) {
    && q.nonRevealHistory == r.nonRevealHistory
    && q.ledger.settledRewardEpochs == r.ledger.settledRewardEpochs
    && forall id :: id in q.ledger.slashEvidenceIds && id !in r.ledger.slashEvidenceIds ==> !id.NonReveal?
  }

  lemma BondLeaves(l: Ledger, bond: StakeBond, epoch: int)
    ensures var q := l.Bond(bond, epoch).ledger;
            q.settledRewardEpochs == l.settledRewardEpochs && q.slashEvidenceIds == l.slashEvidenceIds
  {}

  lemma UnbondLeaves(l: Ledger, b: string, epoch: int, delay: int)
    ensures var q := l.RequestUnbond(b, epoch, delay).ledger;
            q.settledRewardEpochs == l.settledRewardEpochs && q.slashEvidenceIds == l.slashEvidenceIds
  {}

  lemma WithdrawLeaves(l: Ledger, b: string, epoch: int)
    ensures var q := l.Withdraw(b, epoch).ledger;
            q.settledRewardEpochs == l.settledRewardEpochs && q.slashEvidenceIds == l.slashEvidenceIds
  {}

  lemma MoneyLeaves(l: Ledger, account: string, amount: int, epoch: int, source: Option<Id>, txId: Id)
    ensures var q := l.Fund(account, amount, epoch, source).ledger;
            q.settledRewardEpochs == l.settledRewardEpochs && q.slashEvidenceIds == l.slashEvidenceIds
    ensures var q := l.ChargeFee(account, amount, epoch, txId).ledger;
            q.settledRewardEpochs == l.settledRewardEpochs && q.slashEvidenceIds == l.slashEvidenceIds
  {}

  lemma SlashLeaves(r: Registry, evidence: SlashEvidence, penalty: Option<int>)
    requires Sound(r.ledger) && Coupled(r)
    ensures LeavesRounds(r, r.Slash(evidence, penalty).registry)
  {
    hide Sound, Coupled, Ledger.Slash, SlashPasses;
    if SlashReaches(r, evidence, penalty) {
      SlashFields(r.ledger, r.bondOf[evidence.offenderId], SlashAmount(r, evidence, penalty), evidence.epoch, evidence.evidenceId);
    } else {
      UntouchedSlash(r, evidence, penalty);
    }
  }

  lemma MembersLeave(r: Registry, op: MemberOp)
    requires Orderly(r)
    ensures LeavesRounds(r, Do(r, op))
  {
    assert Sound(r.ledger) && Coupled(r) by { SoundAndCoupled(r); }
    hide Orderly, Sound, Coupled, Ledger.Bond, Ledger.RequestUnbond, Ledger.Withdraw, Ledger.Fund, Ledger.ChargeFee,
         Registry.AdmissionRefused, Ledger.Slash;
    match op
    case Admit(request, bond) => if bond.Some? { BondLeaves(r.ledger, bond.value, r.epoch); }
    case Exit(v, atEpoch) => if v in r.bondOf { UnbondLeaves(r.ledger, r.bondOf[v], r.epoch, r.withdrawalDelay); }
    case Withdraw(v, atEpoch) => if v in r.bondOf { WithdrawLeaves(r.ledger, r.bondOf[v], Now(r, atEpoch)); }
    case Slash(evidence, penalty) => SlashLeaves(r, evidence, penalty);
    case AdvanceEpoch =>
    case Fund(account, amount, source) => MoneyLeaves(r.ledger, account, amount, r.epoch, source, Name(""));
    case ChargeFee(payer, amount, txId) => MoneyLeaves(r.ledger, payer, amount, r.epoch, None, txId);
  }

  lemma SoundAndCoupled(r: Registry)
    requires Orderly(r)
    ensures Sound(r.ledger) && Coupled(r)
  {
    hide Sound, Coupled, ExitsKnown;
  }

  lemma MembersKeep(b: Rounds, op: MemberOp)
    requires Coordinated(b)
    ensures Coordinated(b.(registry := Do(b.registry, op))) <==> MayDo(b.registry, op)
    ensures (op.Withdraw? ==> Punctual(b.registry, op.atEpoch)) ==> StaysTimely(b.registry, Do(b.registry, op))
  {
    hide Orderly, Do, MayDo, StaysTimely, Punctual;
    MembersLeave(b.registry, op);
    StepExactly(b.registry, op);
  }

  /** A round that passes its checks fines somebody and then finds its reward epoch settled. */
  ghost predicate FinalizeParts(b: Rounds, round: int, reward: int, penalty: int) {
    && (b.registry.epoch, round) !in b.settlements && b.Settleable(round, reward, penalty)
    && Collides(b, round, reward) && penalty > 0 && b.Silent(round) != {}
  }

  lemma FinalizeStep(b: Rounds, round: int, reward: int, penalty: int)
    requires Coordinated(b) && !FinalizeParts(b, round, reward, penalty)
    ensures var c := b.Finalize(round, reward, penalty).rounds; Coordinated(c) && StaysTimely(b.registry, c.registry)
  {
    hide Coordinated, Timely, Rounds.Finalize, Rounds.Settleable, RoundPaid, Collides, AllFinable, AllKnown, Fined,
         Rounds.Silent, Balance;
    FinalizeAllOrNothing(b, round, reward, penalty);
    if b.Settleable(round, reward, penalty) { PenaltyNonNegative(b, round, reward, penalty); }
  }

  /** The fines leave evidence of a round that is not settled. */
  lemma FinesWithoutSettlement(b: Rounds, round: int, penalty: int, q: Registry)
    requires AllFinable(b.registry, SilentNames(b, round), round) && Fined(b, round, penalty, q)
    requires penalty > 0 && b.Silent(round) != {} && (b.registry.epoch, round) !in b.settlements
    ensures !EvidenceSettled(q.ledger.slashEvidenceIds, b.settlements)
  {
    var v := SilentNames(b, round)[0];
    var id := NonReveal(b.registry.epoch, round, v);
    assert id in Evidence(b.registry, SilentNames(b, round), round);
    hide AllFinable, Rounds.Silent, Fines, SortedNames;
    assert id in q.ledger.slashEvidenceIds && id.NonReveal?;
  }

  lemma FinalizeBreaks(b: Rounds, round: int, reward: int, penalty: int)
    requires Coordinated(b) && FinalizeParts(b, round, reward, penalty)
    ensures !Coordinated(b.Finalize(round, reward, penalty).rounds)
  {
    hide Rounds.Finalize, Rounds.Settleable, RoundPaid, Collides, AllFinable, AllKnown, Fined, Rounds.Silent, Balance,
         Orderly, RewardsSettled, EvidenceSettled;
    FinalizeAllOrNothing(b, round, reward, penalty);
    FinesWithoutSettlement(b, round, penalty, b.Finalize(round, reward, penalty).rounds.registry);
  }

  /** A step of a mixed run keeps everything in step exactly when it takes none of the branches that part ledger and rest. */
  lemma RoundStepExactly(b: Rounds, op: RoundOp)
    requires Coordinated(b)
    ensures Coordinated(DoRound(b, op)) <==> MayDoRound(b, op)
    ensures MayDoRound(b, op) && (op.Members? && op.op.Withdraw? ==> Punctual(b.registry, op.op.atEpoch)) ==>
              StaysTimely(b.registry, DoRound(b, op).registry)
  {
    match op
    case Members(m) => hide Coordinated, Do, MayDo, StaysTimely, Punctual; MembersKeep(b, m);
    case SubmitCommitment(c) => hide Orderly, EvidenceSettled, RewardsSettled, Timely;
    case SubmitReveal(r) => hide Orderly, EvidenceSettled, RewardsSettled, Timely;
    case Finalize(round, reward, penalty) =>
      hide Coordinated, Rounds.Finalize, FinalizeParts, StaysTimely;
      if FinalizeParts(b, round, reward, penalty) {
        FinalizeBreaks(b, round, reward, penalty);
      } else {
        FinalizeStep(b, round, reward, penalty);
      }
  }

  /** The state after a run in which the ledger never goes ahead of membership or of the rounds. */
  ghost function RunRounds(b: Rounds, ops: seq<RoundOp>): Option<Rounds> {
    if ops == [] then Some(b)
    else
      match RunRounds(b, ops[..|ops| - 1])
      case None => None
      case Some(c) => if MayDoRound(c, ops[|ops| - 1]) then Some(DoRound(c, ops[|ops| - 1])) else None
  }

  /** All of membership, ledger and rounds stay in step over every such run. */
  lemma {:induction false} RoundRunsKeep(b: Rounds, ops: seq<RoundOp>)
    requires Coordinated(b) && RunRounds(b, ops).Some?
    ensures var c := RunRounds(b, ops).value; Coordinated(c) && Orderly(c.registry)
  {
    hide DoRound, MayDoRound, Orderly, EvidenceSettled, RewardsSettled;
    if ops != [] {
      hide Coordinated;
      RoundRunsKeep(b, ops[..|ops| - 1]);
      var before := RunRounds(b, ops[..|ops| - 1]).value;
      RoundStepExactly(before, ops[|ops| - 1]);
      OrderlyRounds(DoRound(before, ops[|ops| - 1]));
    }
  }

  lemma OrderlyRounds(b: Rounds)
    requires Coordinated(b)
    ensures Orderly(b.registry)
  {
    hide Orderly, EvidenceSettled, RewardsSettled;
  }

  // ----- Runs that need no checks

  ghost predicate AllBelow(b: Rounds) { forall p :: p in b.settlements ==> 0 <= p.1 < REWARD_EPOCH_STRIDE }

  predicate Below(op: RoundOp) { op.Finalize? ==> 0 <= op.round < REWARD_EPOCH_STRIDE }

  /** While rounds stay below the stride of the reward epochs, none collides. */
  lemma BelowMayDo(b: Rounds, op: RoundOp)
    requires Coordinated(b) && AllBelow(b) && Below(op) && (op.Members? ==> MayDo(b.registry, op.op))
    ensures MayDoRound(b, op) && AllBelow(DoRound(b, op))
  {
    hide Coordinated, Collides, Do, MayDo, Rounds.Settleable, Rounds.Penalties, Rounds.Rewards, Rounds.Revealed,
         Rounds.Committed, Rounds.BeaconOf, Rounds.Silent;
    if op.Finalize? && (b.registry.epoch, op.round) !in b.settlements { BelowStrideNoCollision(b, op.round, op.reward); }
  }

  ghost function PlayRounds(b: Rounds, ops: seq<RoundOp>): Rounds {
    if ops == [] then b else DoRound(PlayRounds(b, ops[..|ops| - 1]), ops[|ops| - 1])
  }

  /** Rounds below the stride, withdrawals no later than the manager's epoch, and checked slashes. */
  predicate PromptRound(b: Rounds, op: RoundOp) { Below(op) && (op.Members? ==> Prompt(b.registry, op.op)) }

  ghost predicate PromptRounds(b: Rounds, ops: seq<RoundOp>) {
    ops != [] ==> PromptRounds(b, ops[..|ops| - 1]) && PromptRound(PlayRounds(b, ops[..|ops| - 1]), ops[|ops| - 1])
  }

  lemma PromptStep(b: Rounds, op: RoundOp)
    requires Coordinated(b) && AllBelow(b) && Timely(b.registry) && PromptRound(b, op)
    ensures MayDoRound(b, op)
    ensures var c := DoRound(b, op); Coordinated(c) && AllBelow(c) && Timely(c.registry)
  {
    hide Coordinated, AllBelow, Timely, DoRound, MayDoRound, Below, Punctual, SlashParts;
    if op.Members? { TimelyMayDo(b.registry, op.op); }
    hide MayDo;
    BelowMayDo(b, op);
    RoundStepExactly(b, op);
  }

  /** With a withdrawal delay such a run never needs the checks, and everything stays in step. */
  lemma {:induction false} PromptRoundsKeep(b: Rounds, ops: seq<RoundOp>)
    requires Coordinated(b) && AllBelow(b) && Timely(b.registry) && PromptRounds(b, ops)
    ensures var c := PlayRounds(b, ops);
            RunRounds(b, ops) == Some(c) && Coordinated(c) && AllBelow(c) && Timely(c.registry)
  {
    hide Coordinated, AllBelow, Timely, DoRound, MayDoRound, PromptRound;
    if ops != [] {
      PromptRoundsKeep(b, ops[..|ops| - 1]);
      PromptStep(PlayRounds(b, ops[..|ops| - 1]), ops[|ops| - 1]);
    }
  }

  /** A new coordinator over a ledger and a membership with nothing in them. */
  lemma StartsCoordinated(asset: string, treasury: string, bps: int, minimumStake: int, delay: int)
    requires treasury != "" && 0 <= bps <= 10_000
    ensures var l := Ledger(asset, treasury, bps, map[], map[], {}, {}, {});
            var r := Registry(l, minimumStake, delay, 0, map[], {}, map[], {}, {});
            Coordinated(Rounds(r, map[], map[], map[])) && AllBelow(Rounds(r, map[], map[], map[])) && Balance(l) == 0
            && (delay >= 1 ==> Timely(r))
  {}
}
