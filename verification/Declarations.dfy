/**
 What an operation must declare: the checks of validation and joining, said with the sets of what it names.
 */
module Declarations {
  import opened Results
  import opened Names
  import opened Quorums
  import opened Committees
  import opened Domains

  function Reads(b: OperationBody): set<(string, string)> { set i | i in b.inputs :: (i.domainId, i.objectId) }

  function Targeted(b: OperationBody): set<(string, string)> { set w | w in b.writes :: (w.domainId, w.objectId) }

  /** Objects are read once and written once each, the same ones, at the same versions. */
  ghost predicate ReadsWhatItWrites(b: OperationBody) {
    && (forall i, j :: 0 <= i < j < |b.inputs| ==>
          (b.inputs[i].domainId, b.inputs[i].objectId) != (b.inputs[j].domainId, b.inputs[j].objectId))
    && (forall i, j :: 0 <= i < j < |b.writes| ==>
          (b.writes[i].domainId, b.writes[i].objectId) != (b.writes[j].domainId, b.writes[j].objectId))
    && Reads(b) == Targeted(b)
    && forall i, w :: i in b.inputs && w in b.writes && i.domainId == w.domainId && i.objectId == w.objectId ==>
                        i.expectedVersion == w.expectedVersion
  }

  lemma PairedExactly(b: OperationBody)
    ensures Paired(b) <==> ReadsWhatItWrites(b)
  {
    if Paired(b) { PairedReads(b); }
    if ReadsWhatItWrites(b) { ReadsArePaired(b); }
    hide Paired, ReadsWhatItWrites;
  }

  lemma PairedReads(b: OperationBody)
    requires Paired(b)
    ensures ReadsWhatItWrites(b)
  {
    forall p ensures p in Reads(b) <==> p in Targeted(b) {
      if p in Reads(b) {
        var i :| i in b.inputs && (i.domainId, i.objectId) == p;
        var k :| 0 <= k < |b.inputs| && b.inputs[k] == i;
        assert HasWrite(b.inputs[k], b.writes);
      }
      if p in Targeted(b) {
        var w :| w in b.writes && (w.domainId, w.objectId) == p;
        var k :| 0 <= k < |b.writes| && b.writes[k] == w;
        assert HasInput(b.writes[k], b.inputs);
      }
    }
    forall i, w | i in b.inputs && w in b.writes && i.domainId == w.domainId && i.objectId == w.objectId
      ensures i.expectedVersion == w.expectedVersion
    {
      SameVersion(b, i, w);
    }
  }

  lemma SameVersion(b: OperationBody, i: InputRef, w: WriteIntent)
    requires Paired(b) && i in b.inputs && w in b.writes && i.domainId == w.domainId && i.objectId == w.objectId
    ensures i.expectedVersion == w.expectedVersion
  {
    var n :| 0 <= n < |b.inputs| && b.inputs[n] == i;
    var k :| 0 <= k < |b.writes| && b.writes[k] == w;
    assert HasInput(b.writes[k], b.inputs);
    var m :| 0 <= m < |b.inputs| && Targets(b.inputs[m], w) && b.inputs[m].expectedVersion == w.expectedVersion;
    assert SameInput(b.inputs[m], b.inputs[n]);
    assert m == n;
  }

  lemma ReadsArePaired(b: OperationBody)
    requires ReadsWhatItWrites(b)
    ensures Paired(b)
  {
    forall n | 0 <= n < |b.inputs| ensures HasWrite(b.inputs[n], b.writes) {
      var i := b.inputs[n];
      assert (i.domainId, i.objectId) in Targeted(b) by { assert i in b.inputs; assert (i.domainId, i.objectId) in Reads(b); }
      var w :| w in b.writes && (w.domainId, w.objectId) == (i.domainId, i.objectId);
      var k :| 0 <= k < |b.writes| && b.writes[k] == w;
      assert Targets(i, b.writes[k]);
    }
    forall k | 0 <= k < |b.writes| ensures HasInput(b.writes[k], b.inputs) {
      var w := b.writes[k];
      assert (w.domainId, w.objectId) in Reads(b) by { assert w in b.writes; assert (w.domainId, w.objectId) in Targeted(b); }
      var i :| i in b.inputs && (i.domainId, i.objectId) == (w.domainId, w.objectId);
      var n :| 0 <= n < |b.inputs| && b.inputs[n] == i;
      assert Targets(b.inputs[n], w);
    }
  }

  lemma DeclaredExactly(b: OperationBody)
    ensures DeclaresDomains(b) <==> (set i | i in b.inputs :: i.domainId) == (set d | d in b.domainIds)
  {
    var named := set i | i in b.inputs :: i.domainId;
    var declared := set d | d in b.domainIds;
    if DeclaresDomains(b) {
      forall x ensures x in named <==> x in declared {
        if x in named {
          var i :| i in b.inputs && i.domainId == x;
          var n :| 0 <= n < |b.inputs| && b.inputs[n] == i;
        }
        if x in declared {
          var n :| 0 <= n < |b.domainIds| && b.domainIds[n] == x;
          var i :| 0 <= i < |b.inputs| && b.inputs[i].domainId == b.domainIds[n];
          assert b.inputs[i] in b.inputs;
        }
      }
    }
    if named == declared { NamedAreDeclared(b); }
  }

  lemma NamedAreDeclared(b: OperationBody)
    requires (set i | i in b.inputs :: i.domainId) == (set d | d in b.domainIds)
    ensures DeclaresDomains(b)
  {
    var named := set i | i in b.inputs :: i.domainId;
    var declared := set d | d in b.domainIds;
    assert named == declared;
    forall i | 0 <= i < |b.inputs| ensures b.inputs[i].domainId in b.domainIds {
      assert b.inputs[i] in b.inputs;
      assert b.inputs[i].domainId in named;
      assert b.inputs[i].domainId in declared;
    }
    forall n | 0 <= n < |b.domainIds| ensures exists i :: 0 <= i < |b.inputs| && b.inputs[i].domainId == b.domainIds[n] {
      assert b.domainIds[n] in declared;
      assert b.domainIds[n] in named;
      var i :| i in b.inputs && i.domainId == b.domainIds[n];
      var k :| 0 <= k < |b.inputs| && b.inputs[k] == i;
    }
  }

  /**
   A domain validates an operation exactly when its client signed it, for this epoch and not applied here before; it has
   inputs, whose domains are the declared ones, this one among them; it writes what it reads; and what it reads here is
   present, at that version, and the signer's own.
   */
  lemma ValidatesExactly(d: Domain, op: Operation)
    ensures var b := op.body;
            d.Validates(op) <==>
            && op.signature == SignedOperation(b.signerPublicKey, b) && b.epoch == d.epoch
            && b.opId !in d.committedOperations && b.inputs != [] && d.domainId in b.domainIds
            && (set i | i in b.inputs :: i.domainId) == (set x | x in b.domainIds)
            && ReadsWhatItWrites(b)
            && forall i :: i in b.inputs && i.domainId == d.domainId ==>
                 && i.objectId in d.objects && d.objects[i.objectId].domainId == d.domainId
                 && d.objects[i.objectId].version == i.expectedVersion && d.objects[i.objectId].owner == b.signer
  {
    PairedExactly(op.body);
    DeclaredExactly(op.body);
    InputsReady(d, op.body);
    hide Paired, DeclaresDomains, ReadsWhatItWrites;
  }

  lemma InputsReady(d: Domain, b: OperationBody)
    ensures (forall n :: 0 <= n < |b.inputs| ==> d.InputReady(b, b.inputs[n])) <==>
            forall i :: i in b.inputs && i.domainId == d.domainId ==>
              && i.objectId in d.objects && d.objects[i.objectId].domainId == d.domainId
              && d.objects[i.objectId].version == i.expectedVersion && d.objects[i.objectId].owner == b.signer
  {
    if forall n :: 0 <= n < |b.inputs| ==> d.InputReady(b, b.inputs[n]) {
      forall i | i in b.inputs && i.domainId == d.domainId
        ensures && i.objectId in d.objects && d.objects[i.objectId].domainId == d.domainId
                && d.objects[i.objectId].version == i.expectedVersion && d.objects[i.objectId].owner == b.signer
      {
        var n :| 0 <= n < |b.inputs| && b.inputs[n] == i;
        assert d.InputReady(b, b.inputs[n]);
      }
    }
  }

  lemma {:induction false} VersionsNamed(inputs: seq<InputRef>, domainId: string, o: string, v: int)
    ensures (o, v) in VersionsOf(inputs, domainId) <==>
            exists i :: i in inputs && i.domainId == domainId && i.objectId == o && i.expectedVersion == v
  {
    if inputs != [] {
      var n := |inputs| - 1;
      VersionsNamed(inputs[..n], domainId, o, v);
      assert inputs == inputs[..n] + [inputs[n]];
    }
  }

  /** Votes are for an epoch, a domain, a phase, and exactly the versions of this domain's objects the operation reads. */
  lemma KeyNamesVersions(d: Domain, op: Operation, phase: Phase)
    ensures var key := d.KeyOf(op, phase);
            && key.epoch == d.epoch && key.domainId == d.domainId && key.phase == phase
            && forall o, v :: (o, v) in key.versions <==>
                 exists i :: i in op.body.inputs && i.domainId == d.domainId && i.objectId == o && i.expectedVersion == v
  {
    hide VersionsOf;
    var key := d.KeyOf(op, phase);
    forall o, v
      ensures (o, v) in key.versions <==>
              exists i :: i in op.body.inputs && i.domainId == d.domainId && i.objectId == o && i.expectedVersion == v
    {
      VersionsNamed(op.body.inputs, d.domainId, o, v);
    }
  }

  // ----- Joins

  lemma {:induction false} NoRepeatsCount(s: seq<string>)
    ensures |set x | x in s| <= |s|
    ensures |set x | x in s| == |s| <==> NoRepeats(s)
  {
    if s == [] {
      assert (set x | x in s) == {};
    } else {
      var n := |s| - 1;
      var before, all := set x | x in s[..n], set x | x in s;
      assert s == s[..n] + [s[n]];
      assert all == before + {s[n]};
      NoRepeatsCount(s[..n]);
      NoRepeatsAppend(s[..n], s[n]);
      hide NoRepeats;
      if s[n] in before { assert all == before; }
    }
  }

  lemma NoRepeatsAppend(s: seq<string>, x: string)
    ensures NoRepeats(s + [x]) <==> NoRepeats(s) && x !in s
  {
    var all := s + [x];
    if x in s {
      var i :| 0 <= i < |s| && s[i] == x;
      assert all[i] == all[|s|];
    }
    if NoRepeats(all) {
      forall i, j | 0 <= i < j < |s| ensures s[i] != s[j] { assert all[i] != all[j]; }
    }
  }

  /** The certificates of a join cover the operation exactly when it declares the domains there are, each of them once. */
  lemma CoversExactly(j: Join, op: Operation)
    ensures j.Covers(op) <==>
            && j.domains != map[] && NoRepeats(op.body.domainIds)
            && forall x :: x in op.body.domainIds <==> exists id :: id in j.domains && j.domains[id].domainId == x
  {
    NoRepeatsCount(op.body.domainIds);
    hide NoRepeats;
    var declared, there := set x | x in op.body.domainIds, set id | id in j.domains :: j.domains[id].domainId;
    assert j.DomainSet(op) == declared;
    if declared == there {
      forall x ensures x in op.body.domainIds <==> exists id :: id in j.domains && j.domains[id].domainId == x {
        assert x in declared <==> x in there;
      }
    }
    if forall x :: x in op.body.domainIds <==> exists id :: id in j.domains && j.domains[id].domainId == x {
      forall x ensures x in declared <==> x in there {}
    }
  }

  /** A certificate other than the one prepared here is refused, whatever it says. */
  lemma OtherCertificateRefused(d: Domain, c: Committee, op: Operation, certificate: Certificate)
    requires op.body.opId !in d.preparedCertificates || d.preparedCertificates[op.body.opId] != certificate
    ensures d.CommitOp(c, op, certificate) == (c, Err(DomainExecutionError))
  {
    hide Domain.Validates, Domain.Certify;
  }
}
