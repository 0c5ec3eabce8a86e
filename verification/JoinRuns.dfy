/**
 Runs of several domains sharing one committee: objects added, operations prepared and committed in one domain or
 joined over all, votes from anywhere in between.
 */
module JoinRuns {
  import opened Results
  import opened Names
  import opened Committees
  import opened Domains
  import opened Joins
  import opened Spending

  /** The domains, and beside them what was committed in each and the versions its objects started with. */
  datatype History = History(join: Join, logs: map<string, seq<Operation>>, births: map<string, map<string, int>>)

  datatype JoinOp =
    | Add(id: string, objectId: string, state: ObjectState)
    | Cast(vote: Vote)
    | PrepareIn(id: string, op: Operation)
    | CommitIn(id: string, op: Operation, prepared: Certificate)
    | ApplyIn(id: string, op: Operation, certificate: Certificate)
    | FinalizeJoin(op: Operation)

  /** commit: issue the commit certificate, then apply it. */
  ghost function Commit(d: Domain, c: Committee, op: Operation, prepared: Certificate): (Domain, Committee, bool) {
    var (voted, r) := d.CommitOp(c, op, prepared);
    if r.Err? then (d, voted, false)
    else
      var (e, applied) := d.ApplyCommitted(voted, op, r.value);
      (e, voted, applied.Ok?)
  }

  function Logged(logs: map<string, seq<Operation>>, id: string, op: Operation, ok: bool): map<string, seq<Operation>>
    requires id in logs
  {
    if ok then logs[id := logs[id] + [op]] else logs
  }

  ghost function Step(h: History, o: JoinOp): History
    requires h.logs.Keys == h.join.domains.Keys == h.births.Keys
  {
    var j := h.join;
    match o
    case Cast(vote) => h.(join := j.(committee := j.committee.RecordVote(vote).0))
    case Add(id, objectId, state) =>
      if id !in j.domains then h
      else
        var (d, ok) := j.domains[id].AddObject(objectId, state);
        if ok then h.(join := j.(domains := j.domains[id := d]),
                      births := h.births[id := h.births[id][objectId := state.version]])
        else h
    case PrepareIn(id, op) =>
      if id !in j.domains then h
      else
        var (d, c, r) := j.domains[id].PrepareOp(j.committee, op);
        h.(join := Join(j.domains[id := d], c))
    case CommitIn(id, op, prepared) =>
      if id !in j.domains then h
      else
        var (d, c, ok) := Commit(j.domains[id], j.committee, op, prepared);
        h.(join := Join(j.domains[id := d], c), logs := Logged(h.logs, id, op, ok))
    case ApplyIn(id, op, certificate) =>
      if id !in j.domains then h
      else
        var (d, r) := j.domains[id].ApplyCommitted(j.committee, op, certificate);
        h.(join := j.(domains := j.domains[id := d]), logs := Logged(h.logs, id, op, r.Ok?))
    case FinalizeJoin(op) =>
      var (k, failed) := j.Finalize(op);
      h.(join := k, logs := if failed.None? then map id | id in h.logs :: h.logs[id] + [op] else h.logs)
  }

  // ----- The committee over a run

  lemma CertifyKeeps(d: Domain, c: Committee, op: Operation, phase: Phase)
    requires Filed(c)
    ensures Filed(d.Certify(c, op, phase).0) && Remembers(c, d.Certify(c, op, phase).0)
  {
    c.NamesIn();
    RecordAllKeeps(c, SortedNames(c.validators.Keys), d.KeyOf(op, phase), op.Statement());
    hide Committee.RecordAll, Filed, Remembers, Committee.IssueCertificate, Committee.VerifyCertificate;
  }

  lemma RemembersSelf(c: Committee)
    ensures Remembers(c, c)
  {}

  lemma PrepareKeeps(d: Domain, c: Committee, op: Operation)
    requires Filed(c)
    ensures Filed(d.PrepareOp(c, op).1) && Remembers(c, d.PrepareOp(c, op).1)
  {
    hide Filed, Remembers, Domain.Certify, Domain.Validates;
    RemembersSelf(c);
    CertifyKeeps(d, c, op, Phase.Prepare);
  }

  lemma CommitKeeps(d: Domain, c: Committee, op: Operation, prepared: Certificate)
    requires Filed(c)
    ensures Filed(d.CommitOp(c, op, prepared).0) && Remembers(c, d.CommitOp(c, op, prepared).0)
  {
    hide Filed, Remembers, Domain.Certify, Domain.Validates;
    RemembersSelf(c);
    CertifyKeeps(d, c, op, Phase.Commit);
  }

  lemma {:induction false} PrepareAllKeeps(j: Join, names: seq<string>, op: Operation)
    requires Filed(j.committee)
    ensures var k := j.PrepareAll(names, op).0; Filed(k.committee) && Remembers(j.committee, k.committee)
    decreases |names|
  {
    hide Filed, Remembers, Domain.PrepareOp;
    RemembersSelf(j.committee);
    if names != [] && names[0] in j.domains {
      PrepareKeeps(j.domains[names[0]], j.committee, op);
      var (domain, voted, r) := j.domains[names[0]].PrepareOp(j.committee, op);
      var next := Join(j.domains[names[0] := domain], voted);
      if r.Ok? {
        PrepareAllKeeps(next, names[1..], op);
        RemembersThrough(j.committee, voted, next.PrepareAll(names[1..], op).0.committee);
      }
    }
  }

  lemma {:induction false} CommitAllKeeps(j: Join, names: seq<string>, op: Operation)
    requires Filed(j.committee)
    ensures var k := j.CommitAll(names, op).0; Filed(k.committee) && Remembers(j.committee, k.committee)
    decreases |names|
  {
    hide Filed, Remembers, Domain.CommitOp;
    RemembersSelf(j.committee);
    if names != [] && names[0] in j.domains && op.body.opId in j.domains[names[0]].preparedCertificates {
      var domain := j.domains[names[0]];
      var prepared := domain.preparedCertificates[op.body.opId];
      CommitKeeps(domain, j.committee, op, prepared);
      var (voted, r) := domain.CommitOp(j.committee, op, prepared);
      var next := j.(committee := voted);
      if r.Ok? {
        CommitAllKeeps(next, names[1..], op);
        RemembersThrough(j.committee, voted, next.CommitAll(names[1..], op).0.committee);
      }
    }
  }

  lemma {:induction false} ApplyAllCommittee(j: Join, names: seq<string>, op: Operation, certificates: seq<Certificate>)
    requires |certificates| == |names|
    ensures j.ApplyAll(names, op, certificates).0.committee == j.committee
    decreases |names|
  {
    hide Domain.ApplyCommitted;
    if names != [] && names[0] in j.domains {
      var (domain, r) := j.domains[names[0]].ApplyCommitted(j.committee, op, certificates[0]);
      if r.Ok? { ApplyAllCommittee(j.(domains := j.domains[names[0] := domain]), names[1..], op, certificates[1..]); }
    }
  }

  lemma FinalizeKeeps(j: Join, op: Operation)
    requires Filed(j.committee)
    ensures var k := j.Finalize(op).0; Filed(k.committee) && Remembers(j.committee, k.committee)
  {
    hide Filed, Remembers, Join.PrepareAll, Join.CommitAll, Join.ApplyAll, Join.Covers, Join.DomainSet, SortedNames;
    RemembersSelf(j.committee);
    var names := SortedNames(j.domains.Keys);
    PrepareAllKeeps(j, names, op);
    var prepared := j.PrepareAll(names, op).0;
    CommitAllKeeps(prepared, names, op);
    var (committed, certificates) := prepared.CommitAll(names, op);
    RemembersThrough(j.committee, prepared.committee, committed.committee);
    if certificates.Ok? { ApplyAllCommittee(committed, names, op, certificates.value); }
  }

  // ----- The account over a run

  ghost predicate AllAccounted(h: History) {
    && h.logs.Keys == h.join.domains.Keys == h.births.Keys
    && forall id :: id in h.join.domains ==> Accounted(h.join.domains[id], h.logs[id], h.births[id])
  }

  lemma OneDomain(h: History, id: string, d: Domain, c: Committee, log: seq<Operation>, births: map<string, int>)
    requires AllAccounted(h) && id in h.join.domains && Accounted(d, log, births)
    ensures AllAccounted(History(Join(h.join.domains[id := d], c), h.logs[id := log], h.births[id := births]))
  {
    hide Accounted;
  }

  lemma ApplyAccounted(d: Domain, c: Committee, op: Operation, certificate: Certificate, log: seq<Operation>, births: map<string, int>)
    requires Accounted(d, log, births)
    ensures var (e, r) := d.ApplyCommitted(c, op, certificate);
            Accounted(e, if r.Ok? then log + [op] else log, births)
  {
    hide Accounted, Domain.Validates, Committee.VerifyCertificate, LocalWrites, WriteAll;
    var (e, r) := d.ApplyCommitted(c, op, certificate);
    if r.Ok? { AppliedAccounted(d, e, op, log, births); }
  }

  lemma CommitAccounted(d: Domain, c: Committee, op: Operation, prepared: Certificate, log: seq<Operation>, births: map<string, int>)
    requires Accounted(d, log, births)
    ensures var (e, voted, ok) := Commit(d, c, op, prepared); Accounted(e, if ok then log + [op] else log, births)
  {
    hide Accounted, Domain.CommitOp, Domain.ApplyCommitted;
    var (voted, r) := d.CommitOp(c, op, prepared);
    if r.Ok? {
      ApplyAccounted(d, voted, op, r.value, log, births);
    }
  }

  lemma PrepareAccounted(d: Domain, c: Committee, op: Operation, log: seq<Operation>, births: map<string, int>)
    requires Accounted(d, log, births)
    ensures Accounted(d.PrepareOp(c, op).0, log, births)
  {
    PrepareOnly(d, c, op);
    hide Accounted, Domain.PrepareOp;
    UntouchedAccounted(d, d.PrepareOp(c, op).0, log, births);
  }

  lemma FinalizeAccounted(h: History, op: Operation)
    requires AllAccounted(h)
    ensures AllAccounted(Step(h, FinalizeJoin(op)))
  {
    hide Accounted, Join.Finalize, Applied, Untouched;
    FinalizeAtomic(h.join, op);
    var (k, failed) := h.join.Finalize(op);
    forall id | id in h.join.domains
      ensures Accounted(k.domains[id], if failed.None? then h.logs[id] + [op] else h.logs[id], h.births[id])
    {
      if failed.None? { AppliedAccounted(h.join.domains[id], k.domains[id], op, h.logs[id], h.births[id]); }
      else { UntouchedAccounted(h.join.domains[id], k.domains[id], h.logs[id], h.births[id]); }
    }
  }

  lemma StepAccounted(h: History, o: JoinOp)
    requires AllAccounted(h)
    ensures AllAccounted(Step(h, o))
  {
    match o
    case Cast(vote) => hide Accounted, Committee.RecordVote;
    case FinalizeJoin(op) => FinalizeAccounted(h, op);
    case Add(id, objectId, state) =>
      hide Accounted, Domain.AddObject;
      if id in h.join.domains && h.join.domains[id].AddObject(objectId, state).1 {
        AddedAccounted(h.join.domains[id], objectId, state, h.logs[id], h.births[id]);
        OneDomain(h, id, h.join.domains[id].AddObject(objectId, state).0, h.join.committee, h.logs[id],
                  h.births[id][objectId := state.version]);
      }
    case PrepareIn(id, op) =>
      hide Accounted, Domain.PrepareOp;
      if id in h.join.domains {
        PrepareAccounted(h.join.domains[id], h.join.committee, op, h.logs[id], h.births[id]);
        var (d, c, r) := h.join.domains[id].PrepareOp(h.join.committee, op);
        OneDomain(h, id, d, c, h.logs[id], h.births[id]);
        SameTable(h.logs, id);
        SameTable(h.births, id);
      }
    case CommitIn(id, op, prepared) =>
      hide Accounted, Commit;
      if id in h.join.domains {
        CommitAccounted(h.join.domains[id], h.join.committee, op, prepared, h.logs[id], h.births[id]);
        var (d, c, ok) := Commit(h.join.domains[id], h.join.committee, op, prepared);
        OneDomain(h, id, d, c, if ok then h.logs[id] + [op] else h.logs[id], h.births[id]);
        SameTable(h.logs, id);
        SameTable(h.births, id);
      }
    case ApplyIn(id, op, certificate) =>
      hide Accounted, Domain.ApplyCommitted;
      if id in h.join.domains {
        ApplyAccounted(h.join.domains[id], h.join.committee, op, certificate, h.logs[id], h.births[id]);
        var (d, r) := h.join.domains[id].ApplyCommitted(h.join.committee, op, certificate);
        OneDomain(h, id, d, h.join.committee, if r.Ok? then h.logs[id] + [op] else h.logs[id], h.births[id]);
        SameTable(h.logs, id);
        SameTable(h.births, id);
      }
  }

  lemma SameTable<T>(m: map<string, T>, id: string)
    requires id in m
    ensures m[id := m[id]] == m
  {}

  lemma StepFiled(h: History, o: JoinOp)
    requires AllAccounted(h) && Filed(h.join.committee)
    ensures Filed(Step(h, o).join.committee) && Remembers(h.join.committee, Step(h, o).join.committee)
  {
    hide Accounted, Filed, Remembers, Domain.AddObject, Domain.PrepareOp, Domain.CommitOp, Domain.ApplyCommitted, Join.Finalize,
         Committee.RecordVote;
    RemembersSelf(h.join.committee);
    match o
    case Cast(vote) => RecordVoteKeeps(h.join.committee, vote);
    case FinalizeJoin(op) => FinalizeKeeps(h.join, op);
    case Add(id, objectId, state) =>
    case PrepareIn(id, op) => if id in h.join.domains { PrepareKeeps(h.join.domains[id], h.join.committee, op); }
    case CommitIn(id, op, prepared) =>
      if id in h.join.domains { CommitKeeps(h.join.domains[id], h.join.committee, op, prepared); }
    case ApplyIn(id, op, certificate) =>
  }

  // ----- Runs

  /** Empty domains and a committee nobody voted in yet. */
  ghost predicate Fresh(h: History) {
    && h.logs.Keys == h.join.domains.Keys == h.births.Keys
    && h.join.committee == Committee(h.join.committee.validators, map[], map[], [])
    && forall id :: id in h.join.domains ==>
         h.join.domains[id].objects == map[] && h.join.domains[id].committedOperations == {}
         && h.logs[id] == [] && h.births[id] == map[]
  }

  ghost predicate Sound(h: History) { AllAccounted(h) && Filed(h.join.committee) }

  ghost function Run(h: History, ops: seq<JoinOp>): (r: History)
    requires Sound(h)
    ensures Sound(r)
  {
    if ops == [] then h
    else
      var before := Run(h, ops[..|ops| - 1]);
      StepAccounted(before, ops[|ops| - 1]);
      StepFiled(before, ops[|ops| - 1]);
      Step(before, ops[|ops| - 1])
  }

  lemma FreshIsSound(h: History)
    requires Fresh(h)
    ensures Sound(h)
  {
    forall id | id in h.join.domains ensures Accounted(h.join.domains[id], h.logs[id], h.births[id]) {}
  }

  lemma {:induction false} RunRemembers(h: History, ops: seq<JoinOp>, more: seq<JoinOp>)
    requires Sound(h)
    ensures Remembers(Run(h, ops).join.committee, Run(h, ops + more).join.committee)
  {
    hide Step, Remembers, AllAccounted, Filed;
    if more == [] {
      assert ops + more == ops;
      RemembersSelf(Run(h, ops).join.committee);
    } else {
      var n := |more| - 1;
      var all, before := ops + more, ops + more[..n];
      assert all[..|all| - 1] == before && all[|all| - 1] == more[n];
      RunRemembers(h, ops, more[..n]);
      StepFiled(Run(h, before), more[n]);
      RemembersThrough(Run(h, ops).join.committee, Run(h, before).join.committee, Run(h, all).join.committee);
    }
  }

  /**
   Over every run: each object's version is its first version plus the operations committed on it, and the committee
   can never certify two statements for one conflict key, at any two moments.
   */
  lemma RunsAreSound(h: History, ops: seq<JoinOp>, more: seq<JoinOp>, key: Key, first: Statement, second: Statement)
    requires Fresh(h)
    ensures Sound(h)
    ensures AllAccounted(Run(h, ops + more))
    ensures (Run(h, ops).join.committee.IssueCertificate(key, first).Some?
             && Run(h, ops + more).join.committee.IssueCertificate(key, second).Some?) ==> first == second
  {
    FreshIsSound(h);
    hide Fresh, Committee.IssueCertificate, Step, AllAccounted, Filed, Remembers, Run;
    RunRemembers(h, ops, more);
    var c, d := Run(h, ops).join.committee, Run(h, ops + more).join.committee;
    if c.IssueCertificate(key, first).Some? && d.IssueCertificate(key, second).Some? {
      OneStatementPerKey(c, d, key, first, second);
    }
  }
}
