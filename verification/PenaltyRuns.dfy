/**
 The penalties of one round: each silent validator loses the same amount of bond and stake, and none of the steps can
 raise.
 */
module PenaltyRuns {
  import opened Results
  import opened Names
  import opened Settlement
  import opened Books
  import opened Membership
  import opened MembershipRuns
  import opened Beacon

  function DockedRecord(record: ValidatorRecord, penalty: int): ValidatorRecord {
    var stake := Max(0, record.stake - penalty);
    record.(stake := stake, active := stake > 0 && record.active, jailed := stake == 0 || record.jailed)
  }

  /** What the treasury gets for this validator. */
  function Fine(r: Registry, v: string, penalty: int): int
    requires v in r.bondOf && r.bondOf[v] in r.ledger.bonds
  {
    Min(penalty, r.ledger.bonds[r.bondOf[v]].amount)
  }

  /** The registry after one penalty. */
  function PenalizedOne(r: Registry, v: string, round: int, penalty: int): Registry
    requires v in r.records && v in r.bondOf && r.bondOf[v] in r.ledger.bonds
  {
    var l, b, id := r.ledger, r.bondOf[v], NonReveal(r.epoch, round, v);
    var fine := Fine(r, v, penalty);
    var e := l.NewEvent(Kind.Slash, r.epoch, l.bonds[b].owner, fine, id);
    r.(ledger := l.(bonds := l.bonds[b := DockedPosition(l.bonds[b], penalty)], events := l.events + {e},
                    slashEvidenceIds := l.slashEvidenceIds + {id},
                    balances := l.balances[l.treasury := l.BalanceOf(l.treasury) + fine]),
       records := r.records[v := DockedRecord(r.records[v], penalty)],
       nonRevealHistory := r.nonRevealHistory + {id})
  }

  /** The validator can be penalized for this round. */
  predicate Finable(r: Registry, v: string, round: int) {
    && r.IsActive(v) && v in r.bondOf && r.bondOf[v] in r.ledger.bonds
    && NonReveal(r.epoch, round, v) !in r.ledger.slashEvidenceIds
    && NonReveal(r.epoch, round, v) !in r.nonRevealHistory
  }

  lemma FirstPenalty(r: Registry, vs: seq<string>, round: int, penalty: int)
    requires Sound(r.ledger) && vs != [] && Finable(r, vs[0], round) && penalty > 0
    ensures var q := PenalizedOne(r, vs[0], round, penalty);
            && PenalizeAll(r, vs, round, penalty).registry == PenalizeAll(q, vs[1..], round, penalty).registry
            && PenalizeAll(r, vs, round, penalty).ok == PenalizeAll(q, vs[1..], round, penalty).ok
  {
    hide Sound, Ledger.Slash;
    SlashFields(r.ledger, r.bondOf[vs[0]], penalty, r.epoch, NonReveal(r.epoch, round, vs[0]));
  }

  lemma OneBooks(r: Registry, v: string, round: int, penalty: int)
    requires Sound(r.ledger) && Finable(r, v, round) && penalty > 0
    ensures KeepsBooks(r.ledger, PenalizedOne(r, v, round, penalty).ledger)
  {
    hide Sound, Balance, Ledger.Slash;
    var id := NonReveal(r.epoch, round, v);
    SlashFields(r.ledger, r.bondOf[v], penalty, r.epoch, id);
    SlashBooks(r.ledger, r.bondOf[v], penalty, r.epoch, id, None);
  }

  lemma OneCoupled(r: Registry, v: string, round: int, penalty: int)
    requires Sound(r.ledger) && Coupled(r) && ExitsKnown(r) && Finable(r, v, round) && penalty > 0
    ensures var q := PenalizedOne(r, v, round, penalty); Coupled(q) && ExitsKnown(q)
  {
    assert Backed(r, v) && ExitKnown(r, v);
    StakeNonNegative(r, v);
    hide Sound, Coupled, ExitsKnown;
    var q := PenalizedOne(r, v, round, penalty);
    ReplaceBoth(r, q, v, q.records[v], q.ledger.bonds[r.bondOf[v]]);
  }

  lemma OneSpread(r: Registry, v: string, round: int, penalty: int)
    requires Finable(r, v, round)
    ensures StaysTimely(r, PenalizedOne(r, v, round, penalty))
  {
    hide Timely, Spread;
    var q := PenalizedOne(r, v, round, penalty);
    var b := r.bondOf[v];
    SlashSpread(r, q, b, penalty);
    var e := r.ledger.NewEvent(Kind.Slash, r.epoch, r.ledger.bonds[b].owner, Fine(r, v, penalty), NonReveal(r.epoch, round, v));
    OtherKind(q, e);
    SpreadKept(r, q, e);
  }

  lemma OneKeeps(r: Registry, v: string, round: int, penalty: int)
    requires Orderly(r) && Finable(r, v, round) && penalty > 0
    ensures var q := PenalizedOne(r, v, round, penalty);
            Orderly(q) && StaysTimely(r, q) && Balance(q.ledger) == Balance(r.ledger)
  {
    hide Sound, Balance, Coupled, ExitsKnown, StaysTimely, Finable;
    OneBooks(r, v, round, penalty);
    OneCoupled(r, v, round, penalty);
    OneSpread(r, v, round, penalty);
  }

  ghost predicate AllFinable(r: Registry, vs: seq<string>, round: int) {
    NoRepeats(vs) && forall i :: 0 <= i < |vs| ==> Finable(r, vs[i], round)
  }

  lemma OthersFinable(r: Registry, vs: seq<string>, round: int, penalty: int)
    requires Coupled(r) && vs != [] && AllFinable(r, vs, round)
    ensures AllFinable(PenalizedOne(r, vs[0], round, penalty), vs[1..], round)
  {
    forall i | 0 <= i < |vs| - 1 ensures Finable(PenalizedOne(r, vs[0], round, penalty), vs[1..][i], round) {
      assert Finable(r, vs[i + 1], round) && vs[0] != vs[i + 1];
    }
  }

  // ----- The sum of the penalties

  function Fines(r: Registry, vs: seq<string>, penalty: int): int
    requires forall i :: 0 <= i < |vs| ==> vs[i] in r.bondOf && r.bondOf[vs[i]] in r.ledger.bonds
  {
    if vs == [] then 0 else Fine(r, vs[0], penalty) + Fines(r, vs[1..], penalty)
  }

  lemma {:induction false} FinesSame(r: Registry, q: Registry, vs: seq<string>, penalty: int)
    requires forall i :: 0 <= i < |vs| ==> vs[i] in r.bondOf && r.bondOf[vs[i]] in r.ledger.bonds
    requires q.bondOf == r.bondOf
    requires forall i :: 0 <= i < |vs| ==> r.bondOf[vs[i]] in q.ledger.bonds
                                           && q.ledger.bonds[r.bondOf[vs[i]]] == r.ledger.bonds[r.bondOf[vs[i]]]
    ensures Fines(q, vs, penalty) == Fines(r, vs, penalty)
  {
    if vs != [] { FinesSame(r, q, vs[1..], penalty); }
  }

  function Evidence(r: Registry, vs: seq<string>, round: int): set<Id> { set v | v in vs :: NonReveal(r.epoch, round, v) }

  predicate DockedOrSame(r: Registry, q: Registry, vs: seq<string>, penalty: int, v: string)
    requires v in r.records && v in q.records
  {
    q.records[v] == if v in vs then DockedRecord(r.records[v], penalty) else r.records[v]
  }

  /** Exactly the penalties of these validators were taken, from record and bond alike. */
  ghost predicate Taken(r: Registry, vs: seq<string>, round: int, penalty: int, q: Registry)
    requires AllFinable(r, vs, round)
  {
    && q == r.(ledger := q.ledger, records := q.records, nonRevealHistory := q.nonRevealHistory)
    && q.ledger == r.ledger.(bonds := q.ledger.bonds, events := q.ledger.events, balances := q.ledger.balances,
                             slashEvidenceIds := q.ledger.slashEvidenceIds)
    && q.records.Keys == r.records.Keys && q.ledger.bonds.Keys == r.ledger.bonds.Keys
    && (forall v :: v in r.records ==> DockedOrSame(r, q, vs, penalty, v))
    && (forall b :: b in r.ledger.bonds && (forall v :: v in vs ==> r.bondOf[v] != b) ==> q.ledger.bonds[b] == r.ledger.bonds[b])
    && (forall v :: v in vs ==> q.ledger.bonds[r.bondOf[v]] == DockedPosition(r.ledger.bonds[r.bondOf[v]], penalty))
    && q.ledger.slashEvidenceIds == r.ledger.slashEvidenceIds + Evidence(r, vs, round)
    && q.nonRevealHistory == r.nonRevealHistory + Evidence(r, vs, round)
    && forall a :: q.ledger.BalanceOf(a) ==
                   r.ledger.BalanceOf(a) + if a == r.ledger.treasury then Fines(r, vs, penalty) else 0
  }

  lemma TailMembers(vs: seq<string>)
    requires vs != [] && NoRepeats(vs)
    ensures forall v :: v in vs <==> v == vs[0] || v in vs[1..]
    ensures vs[0] !in vs[1..]
  {
    assert vs == [vs[0]] + vs[1..];
  }

  lemma StepRecords(r: Registry, vs: seq<string>, round: int, penalty: int, q: Registry)
    requires Coupled(r) && vs != [] && AllFinable(r, vs, round)
    requires var m := PenalizedOne(r, vs[0], round, penalty);
             AllFinable(m, vs[1..], round) && Taken(m, vs[1..], round, penalty, q)
    ensures forall v :: v in r.records ==> v in q.records && DockedOrSame(r, q, vs, penalty, v)
  {
    var m := PenalizedOne(r, vs[0], round, penalty);
    TailMembers(vs);
    hide DockedRecord, Finable, Coupled, DockedPosition;
    forall v | v in r.records ensures DockedOrSame(r, q, vs, penalty, v) {
      assert DockedOrSame(m, q, vs[1..], penalty, v);
    }
  }

  lemma StepBonds(r: Registry, vs: seq<string>, round: int, penalty: int, q: Registry)
    requires Coupled(r) && vs != [] && AllFinable(r, vs, round)
    requires var m := PenalizedOne(r, vs[0], round, penalty);
             AllFinable(m, vs[1..], round) && Taken(m, vs[1..], round, penalty, q)
    ensures forall b :: b in r.ledger.bonds && (forall v :: v in vs ==> r.bondOf[v] != b) ==>
                          q.ledger.bonds[b] == r.ledger.bonds[b]
    ensures forall v :: v in vs ==> q.ledger.bonds[r.bondOf[v]] == DockedPosition(r.ledger.bonds[r.bondOf[v]], penalty)
  {
    var m := PenalizedOne(r, vs[0], round, penalty);
    TailMembers(vs);
    assert Unshared(r.bondOf);
    hide DockedRecord, Coupled, DockedPosition, DockedOrSame;
    forall v | v in vs ensures q.ledger.bonds[r.bondOf[v]] == DockedPosition(r.ledger.bonds[r.bondOf[v]], penalty) {
      if v == vs[0] {
        forall w | w in vs[1..] ensures r.bondOf[w] != r.bondOf[v] { assert w in vs; }
      }
    }
  }

  lemma StepEvidence(r: Registry, vs: seq<string>, round: int)
    requires vs != []
    ensures Evidence(r, vs, round) == {NonReveal(r.epoch, round, vs[0])} + Evidence(r, vs[1..], round)
  {
    assert vs == [vs[0]] + vs[1..];
  }

  lemma StepFines(r: Registry, vs: seq<string>, round: int, penalty: int)
    requires Coupled(r) && vs != [] && AllFinable(r, vs, round)
    requires AllFinable(PenalizedOne(r, vs[0], round, penalty), vs[1..], round)
    ensures Fines(r, vs, penalty) ==
            Fine(r, vs[0], penalty) + Fines(PenalizedOne(r, vs[0], round, penalty), vs[1..], penalty)
  {
    var m := PenalizedOne(r, vs[0], round, penalty);
    assert Unshared(r.bondOf);
    forall i | 0 <= i < |vs| - 1 ensures r.bondOf[vs[1..][i]] in m.ledger.bonds
                                         && m.ledger.bonds[r.bondOf[vs[1..][i]]] == r.ledger.bonds[r.bondOf[vs[1..][i]]] {
      assert vs[1..][i] == vs[i + 1] && vs[0] != vs[i + 1];
    }
    hide Coupled, DockedRecord, DockedPosition, Finable, Fine;
    FinesSame(r, m, vs[1..], penalty);
  }

  lemma StepBalances(r: Registry, vs: seq<string>, round: int, penalty: int, q: Registry)
    requires Coupled(r) && vs != [] && AllFinable(r, vs, round)
    requires var m := PenalizedOne(r, vs[0], round, penalty);
             AllFinable(m, vs[1..], round) && Taken(m, vs[1..], round, penalty, q)
    ensures forall a :: q.ledger.BalanceOf(a) ==
                        r.ledger.BalanceOf(a) + if a == r.ledger.treasury then Fines(r, vs, penalty) else 0
  {
    assert Finable(r, vs[0], round);
    hide Coupled, AllFinable, DockedRecord, DockedPosition, DockedOrSame, Fines, Evidence;
    StepFines(r, vs, round, penalty);
    hide Fine;
  }

  lemma TakenStep(r: Registry, vs: seq<string>, round: int, penalty: int, q: Registry)
    requires Coupled(r) && vs != [] && AllFinable(r, vs, round)
    requires var m := PenalizedOne(r, vs[0], round, penalty);
             AllFinable(m, vs[1..], round) && Taken(m, vs[1..], round, penalty, q)
    ensures Taken(r, vs, round, penalty, q)
  {
    assert Finable(r, vs[0], round);
    hide Coupled, AllFinable, DockedRecord, DockedPosition, DockedOrSame, Fines, Evidence;
    StepRecords(r, vs, round, penalty, q);
    StepBonds(r, vs, round, penalty, q);
    StepEvidence(r, vs, round);
    StepEvidence(PenalizedOne(r, vs[0], round, penalty), vs, round);
    StepFines(r, vs, round, penalty);
    StepBalances(r, vs, round, penalty, q);
    hide Fine;
  }

  lemma TakenNone(r: Registry, vs: seq<string>, round: int, penalty: int)
    requires vs == []
    ensures AllFinable(r, vs, round) && Taken(r, vs, round, penalty, r)
  {
    assert Evidence(r, vs, round) == {} && Fines(r, vs, penalty) == 0;
  }

  /** Once the round may be settled no penalty raises, and exactly the penalties of these validators are taken. */
  lemma {:induction false} PenaltiesGoThrough(r: Registry, vs: seq<string>, round: int, penalty: int)
    requires Orderly(r) && AllFinable(r, vs, round) && penalty > 0
    ensures var p := PenalizeAll(r, vs, round, penalty);
            && p.ok && Orderly(p.registry) && StaysTimely(r, p.registry) && Balance(p.registry.ledger) == Balance(r.ledger)
            && Taken(r, vs, round, penalty, p.registry)
    decreases |vs|
  {
    if vs == [] {
      TakenNone(r, vs, round, penalty);
    } else {
      assert Sound(r.ledger) && Coupled(r) && Finable(r, vs[0], round);
      hide Orderly, Timely, Sound, Coupled, AllFinable, Finable, PenalizeAll, Balance, PenalizedOne, Taken;
      var m := PenalizedOne(r, vs[0], round, penalty);
      OthersFinable(r, vs, round, penalty);
      OneKeeps(r, vs[0], round, penalty);
      FirstPenalty(r, vs, round, penalty);
      PenaltiesGoThrough(m, vs[1..], round, penalty);
      TakenStep(r, vs, round, penalty, PenalizeAll(m, vs[1..], round, penalty).registry);
    }
  }
}
