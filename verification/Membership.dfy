/**
 Membership with its settlement ledger (mosaic/membership.py): every operation changes the ledger first and the
 validator records after it, and may raise in between.
 */
module Membership {
  import opened Results
  import opened Settlement
  import opened Books

  datatype ValidatorRecord = ValidatorRecord(
    publicKey: string, stake: int, depositId: string, active: bool, lockedUntilEpoch: int, jailed: bool)

  datatype AdmissionStatement = AdmissionStatement(
    validatorId: string, publicKey: string, stake: int, depositId: string, requestedEpoch: int, bondId: Option<string>)

  datatype AdmissionSignature = SignedAdmission(key: string, statement: AdmissionStatement) | NotSigned

  datatype AdmissionRequest = AdmissionRequest(statement: AdmissionStatement, signature: AdmissionSignature) {
    predicate Verify() { signature == SignedAdmission(statement.publicKey, statement) }
  }

  datatype SlashEvidence = SlashEvidence(
    offenderId: string, epoch: int, firstDigest: string, secondDigest: string, witnessIds: seq<string>, evidenceId: Id)
  {
    predicate Verify() {
      && offenderId != "" && epoch >= 0 && firstDigest != secondDigest
      && evidenceId == Misbehaviour(offenderId, epoch, firstDigest, secondDigest, witnessIds)
    }
  }

  /** The state an operation leaves, and whether it returned rather than raised. */
  datatype Moved = Moved(registry: Registry, ok: bool)

  datatype Registry = Registry(
    ledger: Ledger,
    minimumStake: int,
    withdrawalDelay: int,
    epoch: int,
    records: map<string, ValidatorRecord>,
    deposits: set<string>,
    bondOf: map<string, string>,
    slashHistory: set<Id>,
    nonRevealHistory: set<Id>)
  {
    /** The validators of the snapshot, which is rebuilt after every change. */
    predicate IsActive(v: string) { v in records && records[v].active && !records[v].jailed }

    function AdmissionRefused(request: AdmissionRequest, bond: Option<StakeBond>): bool {
      var s := request.statement;
      || !request.Verify() || s.stake < minimumStake || s.requestedEpoch < epoch || bond.None?
      || s.validatorId in records || s.depositId in deposits
      || !bond.value.Verify()
      || bond.value.statement.bondId != (if s.bondId.Some? && s.bondId.value != "" then s.bondId.value else s.depositId)
      || bond.value.statement.ownerPublicKey != s.publicKey || bond.value.statement.amount != s.stake
      || bond.value.statement.activationEpoch > epoch
    }

    function Admit(request: AdmissionRequest, bond: Option<StakeBond>): Moved {
      if AdmissionRefused(request, bond) then Moved(this, false)
      else
        var bonded := ledger.Bond(bond.value, epoch);
        if bonded.result.Err? then Moved(this.(ledger := bonded.ledger), false)
        else
          var s := request.statement;
          Moved(this.(ledger := bonded.ledger,
                      bondOf := bondOf[s.validatorId := bond.value.statement.bondId],
                      records := records[s.validatorId :=
                                           ValidatorRecord(s.publicKey, s.stake, s.depositId, true, 0, false)],
                      deposits := deposits + {s.depositId}),
                true)
    }

    function Exit(v: string, atEpoch: Option<int>): Moved {
      if v !in records || (atEpoch.Some? && atEpoch.value < epoch) || v !in bondOf then Moved(this, false)
      else
        var unbond := ledger.RequestUnbond(bondOf[v], epoch, withdrawalDelay);
        if unbond.result.Err? then Moved(this.(ledger := unbond.ledger), false)
        else
          var record := records[v].(active := false, lockedUntilEpoch := epoch + withdrawalDelay);
          Moved(this.(ledger := unbond.ledger, records := records[v := record]), true)
    }

    function Withdraw(v: string, atEpoch: Option<int>): Moved {
      if v !in records || v !in bondOf then Moved(this, false)
      else
        var now := if atEpoch.Some? then atEpoch.value else epoch;
        var paid := ledger.Withdraw(bondOf[v], now);
        if paid.result.Err? || records[v].active || now < records[v].lockedUntilEpoch
        then Moved(this.(ledger := paid.ledger), false)
        else Moved(this.(ledger := paid.ledger, records := records - {v}, bondOf := bondOf - {v}), true)
    }

    function Slash(evidence: SlashEvidence, penalty: Option<int>): Moved {
      var v := evidence.offenderId;
      if !evidence.Verify() || evidence.evidenceId in slashHistory || v !in records || v !in bondOf then Moved(this, false)
      else
        var amount := if penalty.Some? then penalty.value else records[v].stake;
        var slashed := ledger.Slash(bondOf[v], amount, evidence.epoch, evidence.evidenceId, None);
        if slashed.result.Err? || evidence.epoch > epoch || amount <= 0 then Moved(this.(ledger := slashed.ledger), false)
        else
          var stake := Max(0, records[v].stake - amount);
          var record := records[v].(stake := stake, active := stake > 0 && !records[v].jailed,
                                    jailed := stake == 0 || records[v].jailed);
          Moved(this.(ledger := slashed.ledger, records := records[v := record],
                      slashHistory := slashHistory + {evidence.evidenceId}),
                true)
    }

    function PenalizeNonReveal(v: string, atEpoch: int, round: int, penalty: int): Moved {
      var evidenceId := NonReveal(atEpoch, round, v);
      if atEpoch != epoch || penalty <= 0 || v !in records || evidenceId in nonRevealHistory then Moved(this, false)
      else
        var stake := Max(0, records[v].stake - penalty);
        var record := records[v].(stake := stake, active := stake > 0 && records[v].active,
                                  jailed := stake == 0 || records[v].jailed);
        Moved(this.(records := records[v := record], nonRevealHistory := nonRevealHistory + {evidenceId}), true)
    }

    function AdvanceEpoch(): Registry { this.(epoch := epoch + 1) }
  }

  // ----- Stakes and bonds

  predicate Backed(r: Registry, v: string) {
    && v in r.records && v in r.bondOf && r.bondOf[v] in r.ledger.bonds
    && r.ledger.bonds[r.bondOf[v]].amount == r.records[v].stake
  }

  ghost predicate Unshared(bondOf: map<string, string>) {
    forall v, w :: v in bondOf && w in bondOf && bondOf[v] == bondOf[w] ==> v == w
  }

  /** Every recorded validator's stake is the amount of its own ledger bond. */
  ghost predicate Coupled(r: Registry) {
    r.bondOf.Keys == r.records.Keys && Unshared(r.bondOf) && forall v :: v in r.records ==> Backed(r, v)
  }

  /** The validator of an unbonding bond is inactive, and not locked for longer than the bond. */
  predicate ExitKnown(r: Registry, v: string)
    requires Backed(r, v)
  {
    r.ledger.bonds[r.bondOf[v]].unbonding ==>
      !r.records[v].active && r.ledger.bonds[r.bondOf[v]].unlockEpoch >= r.records[v].lockedUntilEpoch
  }

  ghost predicate ExitsKnown(r: Registry)
    requires Coupled(r)
  {
    forall v :: v in r.records ==> ExitKnown(r, v)
  }

  // ----- Events of one bond are spread over epochs

  /** An unbonding request belongs to an earlier epoch or to a bond still unbonding; a withdrawal to an earlier exit. */
  predicate Spread(r: Registry, e: SettlementEvent) {
    && (e.kind == UnbondRequest && e.relatedId.Name? ==>
          e.epoch < r.epoch || (e.relatedId.text in r.ledger.bonds && r.ledger.bonds[e.relatedId.text].unbonding
                                && r.ledger.bonds[e.relatedId.text].unlockEpoch > e.epoch))
    && (e.kind == Kind.Withdraw && e.relatedId.Name? ==>
          e.epoch <= r.epoch && (e.relatedId.text in r.ledger.bonds && r.ledger.bonds[e.relatedId.text].unbonding ==>
                                   r.ledger.bonds[e.relatedId.text].unlockEpoch > e.epoch))
  }

  ghost predicate AllSpread(r: Registry) { forall e :: e in r.ledger.events ==> Spread(r, e) }

  /** The books are in order, every stake is the amount of its own bond, and exits are known. */
  ghost predicate Orderly(r: Registry) { Sound(r.ledger) && Coupled(r) && ExitsKnown(r) }

  /** With a delay and events so spread, no exit and no punctual withdrawal repeats an event. */
  ghost predicate Timely(r: Registry) { AllSpread(r) && r.withdrawalDelay >= 1 }

  ghost predicate StaysTimely(r: Registry, q: Registry) { Timely(r) ==> Timely(q) }
}
