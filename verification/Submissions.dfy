/**
 Commit and reveal: over every run each reveal on record opens the commitment on record for the same validator and round,
 and neither is ever replaced.
 */
module Submissions {
  import opened Results
  import opened Settlement
  import opened Membership
  import opened MembershipRuns
  import opened Beacon
  import opened BeaconRuns
  import opened CoordinatedRuns

  type Slot = (int, int, string)

  /** The reveal in this slot opens the commitment in it; both are signed, by the same key, for this slot. */
  predicate OpensSlot(commitments: map<Slot, Commitment>, openings: map<Slot, Reveal>, slot: Slot)
    requires slot in openings
  {
    && slot in commitments
    && var c, r := commitments[slot], openings[slot];
    && (c.statement.epoch, c.statement.round, c.statement.validatorId) == slot
    && (r.statement.epoch, r.statement.round, r.statement.validatorId) == slot
    && c.statement.commitment == HashOf(r.statement.secret)
    && c.signature.OnCommitment? && c.signature == OnCommitment(c.signature.key, c.statement)
    && r.signature.OnReveal? && r.signature == OnReveal(r.signature.key, r.statement)
  }

  /** Commitments sit in their own slots, signed, and every reveal opens its commitment. */
  ghost predicate AllOpen(b: Rounds) {
    && (forall slot :: slot in b.commitments ==>
          var c := b.commitments[slot];
          && (c.statement.epoch, c.statement.round, c.statement.validatorId) == slot && slot.1 >= 0
          && c.signature.OnCommitment? && c.signature == OnCommitment(c.signature.key, c.statement))
    && forall slot :: slot in b.openings ==> OpensSlot(b.commitments, b.openings, slot)
  }

  /** What is on record stays as it is. */
  ghost predicate KeepsSubmissions(b: Rounds, c: Rounds) {
    && (forall slot :: slot in b.commitments ==> slot in c.commitments && c.commitments[slot] == b.commitments[slot])
    && (forall slot :: slot in b.openings ==> slot in c.openings && c.openings[slot] == b.openings[slot])
  }

  /** A commitment is taken exactly from an active validator, signed by it for a round of this epoch, its first there. */
  lemma CommitmentExactly(b: Rounds, c: Commitment)
    ensures var o, s := b.SubmitCommitment(c), c.statement;
            var slot := (s.epoch, s.round, s.validatorId);
            && (o.result.Ok? <==>
                && s.validatorId in b.registry.records
                && b.registry.records[s.validatorId].active && !b.registry.records[s.validatorId].jailed
                && c.signature == OnCommitment(b.registry.records[s.validatorId].publicKey, s)
                && s.epoch == b.registry.epoch && s.round >= 0 && (s.commitment.OtherText? ==> s.commitment.text != "")
                && (slot in b.commitments ==> b.commitments[slot] == c))
            && o.rounds == if o.result.Ok? then b.(commitments := b.commitments[slot := c]) else b
  {}

  /** A reveal is taken exactly from an active validator, signed by it, of the secret it committed to, its first there. */
  lemma RevealExactly(b: Rounds, r: Reveal)
    ensures var o, s := b.SubmitReveal(r), r.statement;
            var slot := (s.epoch, s.round, s.validatorId);
            && (o.result.Ok? <==>
                && s.validatorId in b.registry.records
                && b.registry.records[s.validatorId].active && !b.registry.records[s.validatorId].jailed
                && r.signature == OnReveal(b.registry.records[s.validatorId].publicKey, s)
                && slot in b.commitments && b.commitments[slot].statement.commitment == HashOf(s.secret)
                && s.commitment == HashOf(s.secret)
                && (slot in b.openings ==> b.openings[slot] == r))
            && o.rounds == if o.result.Ok? then b.(openings := b.openings[slot := r]) else b
  {}

  lemma FinalizeLeaves(b: Rounds, round: int, reward: int, penalty: int)
    ensures var c := b.Finalize(round, reward, penalty).rounds; c.commitments == b.commitments && c.openings == b.openings
  {
    hide Rounds.Settleable, Rounds.Penalties, Rounds.Rewards, Rounds.Revealed, Rounds.Committed;
  }

  lemma StepKeepsOpen(b: Rounds, op: RoundOp)
    requires AllOpen(b)
    ensures AllOpen(DoRound(b, op)) && KeepsSubmissions(b, DoRound(b, op))
  {
    match op
    case Members(m) => hide Do;
    case SubmitCommitment(c) => CommitmentExactly(b, c); hide Rounds.SubmitCommitment; CommitKeeps(b, c);
    case SubmitReveal(r) => RevealExactly(b, r); hide Rounds.SubmitReveal; RevealKeeps(b, r);
    case Finalize(round, reward, penalty) => FinalizeLeaves(b, round, reward, penalty); hide Rounds.Finalize;
  }

  lemma CommitKeeps(b: Rounds, c: Commitment)
    requires AllOpen(b)
    ensures AllOpen(b.SubmitCommitment(c).rounds) && KeepsSubmissions(b, b.SubmitCommitment(c).rounds)
  {
    CommitmentExactly(b, c);
    hide Rounds.SubmitCommitment;
    var d := b.SubmitCommitment(c).rounds;
    forall slot | slot in d.openings ensures OpensSlot(d.commitments, d.openings, slot) {
      assert OpensSlot(b.commitments, b.openings, slot);
    }
  }

  lemma RevealKeeps(b: Rounds, r: Reveal)
    requires AllOpen(b)
    ensures AllOpen(b.SubmitReveal(r).rounds) && KeepsSubmissions(b, b.SubmitReveal(r).rounds)
  {
    RevealExactly(b, r);
    hide Rounds.SubmitReveal;
    var d := b.SubmitReveal(r).rounds;
    forall slot | slot in d.openings ensures OpensSlot(d.commitments, d.openings, slot) {
      if slot in b.openings { assert OpensSlot(b.commitments, b.openings, slot); }
    }
  }

  /** Over every run whatever, reveals open commitments, and neither is ever replaced. */
  lemma {:induction false} RevealsOpenCommitments(b: Rounds, ops: seq<RoundOp>)
    requires AllOpen(b)
    ensures AllOpen(PlayRounds(b, ops)) && KeepsSubmissions(b, PlayRounds(b, ops))
  {
    hide DoRound, AllOpen;
    if ops != [] {
      RevealsOpenCommitments(b, ops[..|ops| - 1]);
      StepKeepsOpen(PlayRounds(b, ops[..|ops| - 1]), ops[|ops| - 1]);
    }
  }

  /** So a validator that committed can reveal one secret only, whatever happens in between. */
  lemma OneSecret(b: Rounds, ops: seq<RoundOp>, first: Reveal, second: Reveal)
    requires AllOpen(b) && b.SubmitReveal(first).result.Ok?
    requires PlayRounds(b.SubmitReveal(first).rounds, ops).SubmitReveal(second).result.Ok?
    requires (first.statement.epoch, first.statement.round, first.statement.validatorId)
          == (second.statement.epoch, second.statement.round, second.statement.validatorId)
    ensures second == first
  {
    var slot := (first.statement.epoch, first.statement.round, first.statement.validatorId);
    RevealExactly(b, first);
    RevealKeeps(b, first);
    var c := b.SubmitReveal(first).rounds;
    RevealsOpenCommitments(c, ops);
    RevealExactly(PlayRounds(c, ops), second);
    hide AllOpen, PlayRounds, Rounds.SubmitReveal;
  }
}
