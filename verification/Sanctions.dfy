/**
 When a validator is slashed, fined or lets go, and what becomes of its record.
 */
module Sanctions {
  import opened Results
  import opened Settlement
  import opened Books
  import opened Membership
  import opened MembershipRuns

  /** Two different objects of one validator in one epoch, under the identifier that all of this has. */
  predicate Proves(e: SlashEvidence) {
    && e.offenderId != "" && e.epoch >= 0 && e.firstDigest != e.secondDigest
    && e.evidenceId == Misbehaviour(e.offenderId, e.epoch, e.firstDigest, e.secondDigest, e.witnessIds)
  }

  /** What is asked for: the penalty, or without one the whole stake. */
  function Asked(r: Registry, e: SlashEvidence, penalty: Option<int>): int
    requires e.offenderId in r.records
  {
    match penalty
    case Some(amount) => amount
    case None => r.records[e.offenderId].stake
  }

  /** A slash returns exactly on evidence that proves something, not from the future and new to membership and ledger. */
  lemma SlashedExactly(r: Registry, e: SlashEvidence, penalty: Option<int>)
    requires Sound(r.ledger)
    ensures r.Slash(e, penalty).ok <==>
            && Proves(e) && e.epoch <= r.epoch
            && e.evidenceId !in r.slashHistory && e.evidenceId !in r.ledger.slashEvidenceIds
            && e.offenderId in r.records && Asked(r, e, penalty) > 0
            && e.offenderId in r.bondOf && r.bondOf[e.offenderId] in r.ledger.bonds
  {
    hide Sound, Ledger.Slash;
    var v := e.offenderId;
    if v in r.records && v in r.bondOf {
      SlashFields(r.ledger, r.bondOf[v], Asked(r, e, penalty), e.epoch, e.evidenceId);
    }
  }

  /** The offender loses what was asked for, or all it has, and is jailed when nothing is left; nobody else changes. */
  lemma SlashedAs(r: Registry, e: SlashEvidence, penalty: Option<int>)
    requires r.Slash(e, penalty).ok
    ensures var q, v := r.Slash(e, penalty).registry, e.offenderId;
            && v in r.records && v in q.records && q.records == r.records[v := q.records[v]]
            && q.bondOf == r.bondOf && q.deposits == r.deposits && q.slashHistory == r.slashHistory + {e.evidenceId}
            && var was, now, amount := r.records[v], q.records[v], Asked(r, e, penalty);
            && now == was.(stake := now.stake, active := now.active, jailed := now.jailed)
            && now.stake == (if was.stake > amount then was.stake - amount else 0)
            && (now.jailed <==> was.jailed || now.stake == 0) && (now.active <==> now.stake > 0 && !was.jailed)
  {
    hide Ledger.Slash;
  }

  /** A fine for silence is taken exactly once for a validator and round of this very epoch. */
  lemma FinedExactly(r: Registry, v: string, atEpoch: int, round: int, penalty: int)
    ensures var m, id := r.PenalizeNonReveal(v, atEpoch, round, penalty), NonReveal(atEpoch, round, v);
            && (m.ok <==> v in r.records && atEpoch == r.epoch && penalty > 0 && id !in r.nonRevealHistory)
            && (!m.ok ==> m.registry == r)
            && (m.ok ==>
                  && m.registry.nonRevealHistory == r.nonRevealHistory + {id} && m.registry.ledger == r.ledger
                  && v in m.registry.records && m.registry.records == r.records[v := m.registry.records[v]]
                  && var was, now := r.records[v], m.registry.records[v];
                  && now == was.(stake := now.stake, active := now.active, jailed := now.jailed)
                  && now.stake == (if was.stake > penalty then was.stake - penalty else 0)
                  && (now.jailed <==> was.jailed || now.stake == 0) && (now.active <==> now.stake > 0 && was.active))
  {}

  /** A validator that leaves keeps its record, inactive and locked for the whole delay. */
  lemma LeavesAs(r: Registry, v: string, atEpoch: Option<int>)
    requires r.Exit(v, atEpoch).ok
    ensures var q := r.Exit(v, atEpoch).registry;
            && v in r.records && q.records == r.records[v := r.records[v].(active := false,
                                                                          lockedUntilEpoch := r.epoch + r.withdrawalDelay)]
            && q.bondOf == r.bondOf && q.deposits == r.deposits && q.epoch == r.epoch
            && (atEpoch.Some? ==> atEpoch.value >= r.epoch)
  {
    hide Ledger.RequestUnbond;
  }

  /** Whatever the state, nobody is let go while active or before the lock is over, or without the ledger paying. */
  lemma LetGoExactly(r: Registry, v: string, atEpoch: Option<int>)
    ensures var m, now := r.Withdraw(v, atEpoch), Now(r, atEpoch);
            && (m.ok <==> && v in r.records && v in r.bondOf && r.ledger.Withdraw(r.bondOf[v], now).result.Ok?
                          && !r.records[v].active && now >= r.records[v].lockedUntilEpoch)
            && (m.ok ==> v !in m.registry.records && v !in m.registry.bondOf)
            && (forall w :: w != v ==> (w in m.registry.records <==> w in r.records))
            && (forall w :: w != v && w in r.records ==> m.registry.records[w] == r.records[w])
            && (!m.ok ==> m.registry == r.(ledger := m.registry.ledger))
  {
    hide Ledger.Withdraw;
  }
}
