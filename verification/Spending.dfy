/**
 Object versions over whole runs: an object's version is its initial version plus the operations committed on it, and
 no two committed operations spent the same version.
 */
module Spending {
  import opened Results
  import opened Names
  import opened Committees
  import opened Domains
  import opened Joins

  // ----- The writes of one operation

  predicate Writes(writes: seq<WriteIntent>, objectId: string) { exists j :: 0 <= j < |writes| && writes[j].objectId == objectId }

  ghost predicate ObjectsDiffer(writes: seq<WriteIntent>) {
    forall i, j :: 0 <= i < j < |writes| ==> writes[i].objectId != writes[j].objectId
  }

  ghost predicate AllPresent(objects: Objects, writes: seq<WriteIntent>) {
    forall i :: 0 <= i < |writes| ==> writes[i].objectId in objects
  }

  lemma {:induction false} WriteAllVersions(objects: Objects, writes: seq<WriteIntent>)
    requires ObjectsDiffer(writes) && AllPresent(objects, writes)
    ensures WriteAll(objects, writes).Keys == objects.Keys
    ensures forall o :: o in objects ==>
              WriteAll(objects, writes)[o].version == objects[o].version + if Writes(writes, o) then 1 else 0
    ensures forall o :: o in objects && !Writes(writes, o) ==> WriteAll(objects, writes)[o] == objects[o]
  {
    if writes != [] {
      var n := |writes| - 1;
      var init := writes[..n];
      WriteAllVersions(objects, init);
      forall o | o in objects ensures Writes(writes, o) <==> Writes(init, o) || writes[n].objectId == o {
        WritesSplit(writes, o);
      }
      forall j | 0 <= j < n ensures init[j].objectId != writes[n].objectId {}
      assert !Writes(init, writes[n].objectId);
      hide Writes;
    }
  }

  lemma WritesSplit(writes: seq<WriteIntent>, o: string)
    requires writes != []
    ensures Writes(writes, o) <==> Writes(writes[..|writes| - 1], o) || writes[|writes| - 1].objectId == o
  {
    if Writes(writes, o) && writes[|writes| - 1].objectId != o {
      var j :| 0 <= j < |writes| && writes[j].objectId == o;
      assert writes[..|writes| - 1][j].objectId == o;
    }
  }

  lemma {:induction false} LocalFrom(writes: seq<WriteIntent>, domainId: string)
    ensures forall w :: w in LocalWrites(writes, domainId) <==> w in writes && w.domainId == domainId
  {
    if writes != [] {
      LocalFrom(writes[..|writes| - 1], domainId);
      assert writes == writes[..|writes| - 1] + [writes[|writes| - 1]];
    }
  }

  lemma {:induction false} LocalDiffer(writes: seq<WriteIntent>, domainId: string)
    requires WritesDiffer(writes)
    ensures ObjectsDiffer(LocalWrites(writes, domainId))
  {
    if writes != [] {
      var n := |writes| - 1;
      LocalDiffer(writes[..n], domainId);
      LocalFrom(writes[..n], domainId);
      var local := LocalWrites(writes[..n], domainId);
      if writes[n].domainId == domainId {
        forall i | 0 <= i < |local| ensures local[i].objectId != writes[n].objectId {
          assert local[i] in local;
          var k :| 0 <= k < n && writes[..n][k] == local[i];
          assert !SameWrite(writes[k], writes[n]);
        }
      }
    }
  }

  /** A valid operation's local writes name present objects, at the versions these have. */
  lemma LocalWritesCurrent(d: Domain, op: Operation)
    requires d.Validates(op)
    ensures var local := LocalWrites(op.body.writes, d.domainId);
            ObjectsDiffer(local) && forall i :: 0 <= i < |local| ==>
              local[i].objectId in d.objects && d.objects[local[i].objectId].version == local[i].expectedVersion
  {
    LocalDiffer(op.body.writes, d.domainId);
    LocalFrom(op.body.writes, d.domainId);
    var b, local := op.body, LocalWrites(op.body.writes, d.domainId);
    hide LocalWrites, ObjectsDiffer, WritesDiffer, InputsDiffer, DeclaresDomains;
    forall i | 0 <= i < |local|
      ensures local[i].objectId in d.objects && d.objects[local[i].objectId].version == local[i].expectedVersion
    {
      assert local[i] in local;
      var j :| 0 <= j < |b.writes| && b.writes[j] == local[i];
      assert HasInput(b.writes[j], b.inputs);
      var k :| 0 <= k < |b.inputs| && Targets(b.inputs[k], b.writes[j]) && b.inputs[k].expectedVersion == b.writes[j].expectedVersion;
      assert d.InputReady(b, b.inputs[k]);
    }
  }

  // ----- One domain's log

  function Local(op: Operation, domainId: string): seq<WriteIntent> { LocalWrites(op.body.writes, domainId) }

  /** How many logged operations wrote the object. */
  function CountOn(log: seq<Operation>, domainId: string, o: string): nat {
    if log == [] then 0
    else CountOn(log[..|log| - 1], domainId, o) + if Writes(Local(log[|log| - 1], domainId), o) then 1 else 0
  }

  /** Each local write of the i-th logged operation spent the version its object then had. */
  predicate SpentAt(log: seq<Operation>, domainId: string, births: map<string, int>, i: nat)
    requires i < |log|
  {
    var local := Local(log[i], domainId);
    forall j :: 0 <= j < |local| ==>
      local[j].objectId in births
      && local[j].expectedVersion == births[local[j].objectId] + CountOn(log[..i], domainId, local[j].objectId)
  }

  ghost predicate AllSpent(log: seq<Operation>, domainId: string, births: map<string, int>) {
    forall i :: 0 <= i < |log| ==> SpentAt(log, domainId, births, i)
  }

  ghost predicate VersionsCount(d: Domain, log: seq<Operation>, births: map<string, int>) {
    d.objects.Keys == births.Keys &&
    forall o :: o in d.objects ==> d.objects[o].version == births[o] + CountOn(log, d.domainId, o)
  }

  ghost predicate Accounted(d: Domain, log: seq<Operation>, births: map<string, int>) {
    && VersionsCount(d, log, births) && AllSpent(log, d.domainId, births)
    && d.committedOperations == set i | 0 <= i < |log| :: log[i].body.opId
  }

  lemma CountOnAppend(log: seq<Operation>, op: Operation, domainId: string, o: string)
    ensures CountOn(log + [op], domainId, o) == CountOn(log, domainId, o) + if Writes(Local(op, domainId), o) then 1 else 0
  {
    assert (log + [op])[..|log|] == log && (log + [op])[|log|] == op;
  }

  lemma SpentStays(log: seq<Operation>, op: Operation, domainId: string, births: map<string, int>, births': map<string, int>, i: nat)
    requires i < |log| && SpentAt(log, domainId, births, i)
    requires forall o :: o in births ==> o in births' && births'[o] == births[o]
    ensures SpentAt(log + [op], domainId, births', i)
  {
    assert (log + [op])[..i] == log[..i] && (log + [op])[i] == log[i];
    hide Local, CountOn;
  }

  lemma SpentInPlace(log: seq<Operation>, domainId: string, births: map<string, int>, births': map<string, int>, i: nat)
    requires i < |log| && SpentAt(log, domainId, births, i)
    requires forall o :: o in births ==> o in births' && births'[o] == births[o]
    ensures SpentAt(log, domainId, births', i)
  {
    hide Local, CountOn;
  }

  lemma AppliedVersions(d: Domain, e: Domain, op: Operation, log: seq<Operation>, births: map<string, int>)
    requires VersionsCount(d, log, births) && Applied(d, e, op)
    ensures VersionsCount(e, log + [op], births)
  {
    LocalWritesCurrent(d, op);
    var local := Local(op, d.domainId);
    WriteAllVersions(d.objects, local);
    hide Domain.Validates, LocalWrites, WriteAll, Writes;
    forall o | o in e.objects ensures e.objects[o].version == births[o] + CountOn(log + [op], d.domainId, o) {
      CountOnAppend(log, op, d.domainId, o);
    }
  }

  lemma AppliedSpends(d: Domain, op: Operation, log: seq<Operation>, births: map<string, int>)
    requires VersionsCount(d, log, births) && d.Validates(op)
    ensures SpentAt(log + [op], d.domainId, births, |log|)
  {
    LocalWritesCurrent(d, op);
    assert (log + [op])[..|log|] == log && (log + [op])[|log|] == op;
    hide Domain.Validates, LocalWrites, CountOn;
  }

  /** Applying an operation adds it to the account. */
  lemma AppliedAccounted(d: Domain, e: Domain, op: Operation, log: seq<Operation>, births: map<string, int>)
    requires Accounted(d, log, births) && Applied(d, e, op)
    ensures Accounted(e, log + [op], births)
  {
    AppliedVersions(d, e, op, log, births);
    AppliedSpends(d, op, log, births);
    hide VersionsCount, SpentAt, Domain.Validates, LocalWrites, WriteAll;
    forall i | 0 <= i < |log| ensures SpentAt(log + [op], d.domainId, births, i) { SpentStays(log, op, d.domainId, births, births, i); }
    OpIdsAppend(log, op);
  }

  lemma OpIdsAppend(log: seq<Operation>, op: Operation)
    ensures (set i | 0 <= i < |log + [op]| :: (log + [op])[i].body.opId) == (set i | 0 <= i < |log| :: log[i].body.opId) + {op.body.opId}
  {
    var all := log + [op];
    assert all[|log|] == op;
    assert forall i :: 0 <= i < |log| ==> all[i] == log[i];
  }

  lemma UntouchedAccounted(d: Domain, e: Domain, log: seq<Operation>, births: map<string, int>)
    requires Accounted(d, log, births) && Untouched(d, e)
    ensures Accounted(e, log, births)
  {
    hide SpentAt, CountOn;
  }

  lemma {:induction false} NeverWritten(log: seq<Operation>, domainId: string, births: map<string, int>, o: string)
    requires AllSpent(log, domainId, births) && o !in births
    ensures CountOn(log, domainId, o) == 0
  {
    if log != [] {
      var n := |log| - 1;
      PrefixSpent(log, domainId, births);
      NeverWritten(log[..n], domainId, births, o);
      assert SpentAt(log, domainId, births, n);
      hide LocalWrites;
    }
  }

  lemma PrefixSpent(log: seq<Operation>, domainId: string, births: map<string, int>)
    requires AllSpent(log, domainId, births) && log != []
    ensures AllSpent(log[..|log| - 1], domainId, births)
  {
    var init := log[..|log| - 1];
    forall i | 0 <= i < |init| ensures SpentAt(init, domainId, births, i) {
      assert SpentAt(log, domainId, births, i) && init[..i] == log[..i];
    }
    hide SpentAt;
  }

  lemma AddedAccounted(d: Domain, objectId: string, state: ObjectState, log: seq<Operation>, births: map<string, int>)
    requires Accounted(d, log, births) && d.AddObject(objectId, state).1
    ensures Accounted(d.AddObject(objectId, state).0, log, births[objectId := state.version])
  {
    NeverWritten(log, d.domainId, births, objectId);
    hide SpentAt, CountOn;
    var births' := births[objectId := state.version];
    forall i | 0 <= i < |log| ensures SpentAt(log, d.domainId, births', i) { SpentInPlace(log, d.domainId, births, births', i); }
  }

  /** Two committed operations that wrote one object spent different versions of it, in order. */
  lemma NoDoubleSpend(d: Domain, log: seq<Operation>, births: map<string, int>, i: nat, j: nat, v: WriteIntent, w: WriteIntent)
    requires Accounted(d, log, births) && i < j < |log|
    requires v in Local(log[i], d.domainId) && w in Local(log[j], d.domainId) && v.objectId == w.objectId
    ensures v.expectedVersion < w.expectedVersion
  {
    assert SpentAt(log, d.domainId, births, i) && SpentAt(log, d.domainId, births, j);
    var o := v.objectId;
    assert Writes(Local(log[i], d.domainId), o);
    assert log[..i + 1][..i] == log[..i] && log[..i + 1][i] == log[i];
    hide LocalWrites, Writes, VersionsCount;
    CountOnGrows(log, d.domainId, o, i + 1, j);
  }

  lemma {:induction false} CountOnGrows(log: seq<Operation>, domainId: string, o: string, i: nat, j: nat)
    requires i <= j <= |log|
    ensures CountOn(log[..i], domainId, o) <= CountOn(log[..j], domainId, o)
    decreases j
  {
    if i < j {
      assert log[..j][..j - 1] == log[..j - 1];
      CountOnGrows(log, domainId, o, i, j - 1);
    }
  }
}
