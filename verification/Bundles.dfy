/**
 Bundles: applying the entries together leaves what applying them one at a time, in any order, leaves; the seal
 chains survive exactly when no two entries put different capsules after one predecessor.
 */
module Bundles {
  import opened Results
  import opened Model
  import opened Certificates
  import opened Protocol
  import opened SealChain
  import opened ProtocolRuns

  type Seals = map<Digest, StateSeal>
  type Heads = map<string, StateSeal>

  function Elements(entries: seq<Entry>): set<Entry> { set e | e in entries }

  /** The entry's predecessor is the current seal of its resource. */
  predicate Claims(current: Heads, known: Seals, e: Entry) {
    && e.0.body.predecessorId.SealDigest?
    && var s := e.0.body.predecessorId.seal;
    && s.resourceId in current && current[s.resourceId] == s
    && e.0.body.predecessorId in known && known[e.0.body.predecessorId] == s
  }

  ghost predicate AllClaim(current: Heads, known: Seals, es: set<Entry>) { forall e :: e in es ==> Claims(current, known, e) }

  ghost predicate NoForkIn(es: set<Entry>) {
    forall e, f :: e in es && f in es && e.0.body.predecessorId == f.0.body.predecessorId ==> e.0.body == f.0.body
  }

  function NewSeal(e: Entry): StateSeal
    requires e.0.body.predecessorId.SealDigest?
  {
    Successor(e.0.body.predecessorId.seal, e.0.body)
  }

  predicate Placed(e: Entry, current': Heads, known': Seals)
    requires e.0.body.predecessorId.SealDigest?
  {
    var s := NewSeal(e);
    && s.resourceId in current' && current'[s.resourceId] == s
    && s.Id() in known' && known'[s.Id()] == s
  }

  function Resource(e: Entry): string
    requires e.0.body.predecessorId.SealDigest?
  {
    e.0.body.predecessorId.seal.resourceId
  }

  ghost function NewIds(es: set<Entry>): set<Digest>
    requires forall e :: e in es ==> e.0.body.predecessorId.SealDigest?
  {
    set e | e in es :: NewSeal(e).Id()
  }

  /** The seals after exactly the entries of es have been put on top of (current, known). */
  ghost predicate Updated(current: Heads, known: Seals, es: set<Entry>, current': Heads, known': Seals)
    requires AllClaim(current, known, es)
  {
    && current'.Keys == current.Keys
    && known'.Keys == known.Keys + NewIds(es)
    && (forall e :: e in es ==> Placed(e, current', known'))
    && (forall r :: r in current && (forall e :: e in es ==> Resource(e) != r) ==> current'[r] == current[r])
    && (forall id :: id in known ==> known'[id] == known[id])
  }

  /** The entries decide the result; their order does not. */
  lemma UpdatedUnique(current: Heads, known: Seals, es: set<Entry>, c1: Heads, k1: Seals, c2: Heads, k2: Seals)
    requires AllClaim(current, known, es) && Updated(current, known, es, c1, k1) && Updated(current, known, es, c2, k2)
    ensures c1 == c2 && k1 == k2
  {
    hide Successor;
    forall r | r in current ensures c1[r] == c2[r] {
      if e :| e in es && Resource(e) == r { assert Placed(e, c1, k1) && Placed(e, c2, k2); NewSealPlace(e); }
    }
    forall id | id in k1 ensures k1[id] == k2[id] {
      if id !in known {
        assert id in NewIds(es);
        var e :| e in es && NewSeal(e).Id() == id;
        assert Placed(e, c1, k1) && Placed(e, c2, k2);
      }
    }
  }

  lemma NewSealPlace(e: Entry)
    requires e.0.body.predecessorId.SealDigest?
    ensures NewSeal(e).resourceId == Resource(e)
  {}

  lemma RepeatedPlaced(current: Heads, known: Seals, es: set<Entry>, current': Heads, known': Seals, e: Entry, f: Entry)
    requires AllClaim(current, known, es + {e}) && NoForkIn(es + {e}) && Updated(current, known, es, current', known')
    requires f in es && f.0.body.predecessorId == e.0.body.predecessorId
    ensures Placed(e, current', known') && NewSeal(e) == NewSeal(f)
  {
    hide Successor;
    assert e in es + {e} && f in es + {e};
    assert Placed(f, current', known');
  }

  /** An entry whose predecessor was already consumed finds its own seal in place. */
  lemma RepeatedEntry(current: Heads, known: Seals, es: set<Entry>, current': Heads, known': Seals, e: Entry, f: Entry)
    requires AllClaim(current, known, es + {e}) && NoForkIn(es + {e}) && Updated(current, known, es, current', known')
    requires f in es && f.0.body.predecessorId == e.0.body.predecessorId
    ensures Placed(e, current', known') && Updated(current, known, es + {e}, current', known')
    ensures current'[NewSeal(e).resourceId := NewSeal(e)] == current' && known'[NewSeal(e).Id() := NewSeal(e)] == known'
  {
    RepeatedPlaced(current, known, es, current', known', e, f);
    AlreadyPlaced(e, current', known');
    hide Placed, NewSeal, NewIds, NoForkIn;
    SealIdsGrow(es, e);
    NewIdIn(es, f);
    assert forall g :: g in es + {e} ==> g in es || g == e;
    assert forall g :: g in es ==> g in es + {e};
  }

  lemma NewIdIn(es: set<Entry>, f: Entry)
    requires (forall e :: e in es ==> e.0.body.predecessorId.SealDigest?) && f in es
    ensures NewSeal(f).Id() in NewIds(es)
  {
    hide NewSeal;
  }

  lemma AlreadyPlaced(e: Entry, current': Heads, known': Seals)
    requires e.0.body.predecessorId.SealDigest? && Placed(e, current', known')
    ensures current'[NewSeal(e).resourceId := NewSeal(e)] == current' && known'[NewSeal(e).Id() := NewSeal(e)] == known'
  {}

  lemma FreshEntry(current: Heads, known: Seals, es: set<Entry>, current': Heads, known': Seals, e: Entry)
    requires AllClaim(current, known, es + {e}) && Updated(current, known, es, current', known')
    requires forall f :: f in es ==> f.0.body.predecessorId != e.0.body.predecessorId
    ensures Resource(e) in current' && current'[Resource(e)] == e.0.body.predecessorId.seal
    ensures forall f :: f in es ==> Resource(f) != Resource(e)
  {
    hide Successor, Placed;
    assert e in es + {e} && Claims(current, known, e);
    forall f | f in es ensures Resource(f) != Resource(e) {
      assert f in es + {e} && Claims(current, known, f);
    }
  }

  lemma FreshPlaced(current: Heads, known: Seals, es: set<Entry>, current': Heads, known': Seals, e: Entry)
    requires AllClaim(current, known, es + {e}) && AllClaim(current, known, es)
    requires Updated(current, known, es, current', known')
    requires NewSeal(e).Id() !in known'
    requires forall f :: f in es ==> Resource(f) != Resource(e)
    ensures var s := NewSeal(e);
            forall f :: f in es + {e} ==> Placed(f, current'[s.resourceId := s], known'[s.Id() := s])
  {
    var s := NewSeal(e);
    var c, k := current'[s.resourceId := s], known'[s.Id() := s];
    NewSealPlace(e);
    hide Successor, NewSeal;
    forall f | f in es + {e} ensures Placed(f, c, k) {
      NewSealPlace(f);
      if f != e { assert Placed(f, current', known'); }
    }
  }

  lemma SealIdsGrow(es: set<Entry>, e: Entry)
    requires forall f :: f in es + {e} ==> f.0.body.predecessorId.SealDigest?
    ensures NewIds(es + {e}) == NewIds(es) + {NewSeal(e).Id()}
  {
    hide NewSeal;
  }

  lemma FreshLeaves(current: Heads, known: Seals, es: set<Entry>, current': Heads, known': Seals, e: Entry)
    requires AllClaim(current, known, es + {e}) && AllClaim(current, known, es)
    requires Updated(current, known, es, current', known')
    requires Claims(current, known, e) && Resource(e) in current'
    ensures forall r :: r in current && (forall f :: f in es + {e} ==> Resource(f) != r) ==>
                          current'[Resource(e) := NewSeal(e)][r] == current[r]
  {
    hide NewSeal, Placed, NewIds;
    forall r | r in current && (forall f :: f in es + {e} ==> Resource(f) != r)
      ensures current'[Resource(e) := NewSeal(e)][r] == current[r]
    {
      assert e in es + {e};
      forall f | f in es ensures Resource(f) != r { assert f in es + {e}; }
    }
  }

  lemma FreshInstalled(current: Heads, known: Seals, es: set<Entry>, current': Heads, known': Seals, e: Entry)
    requires AllClaim(current, known, es + {e}) && AllClaim(current, known, es)
    requires Updated(current, known, es, current', known')
    requires Resource(e) in current' && NewSeal(e).Id() !in known'
    requires forall f :: f in es ==> Resource(f) != Resource(e)
    ensures var s := NewSeal(e); Updated(current, known, es + {e}, current'[s.resourceId := s], known'[s.Id() := s])
  {
    hide NewSeal, Placed, NewIds, Successor;
    ClaimsOf(current, known, es + {e}, e);
    FreshPlaced(current, known, es, current', known', e);
    NewSealPlace(e);
    SealIdsGrow(es, e);
    FreshLeaves(current, known, es, current', known', e);
    hide Claims, AllClaim;
  }

  // ----- One entry on top of others

  /** q is p after the entries of es, and nothing but seals differs. */
  ghost predicate After(p: ProtocolState, es: set<Entry>, q: ProtocolState)
    requires AllClaim(p.currentSeals, p.knownSeals, es)
  {
    && q == p.(currentSeals := q.currentSeals, knownSeals := q.knownSeals)
    && Updated(p.currentSeals, p.knownSeals, es, q.currentSeals, q.knownSeals)
  }

  lemma KeepsClaim(p: ProtocolState, es: set<Entry>, q: ProtocolState, e: Entry)
    requires AllClaim(p.currentSeals, p.knownSeals, es) && After(p, es, q) && Claims(p.currentSeals, p.knownSeals, e)
    ensures e.0.body.predecessorId in q.knownSeals
    ensures q.knownSeals[e.0.body.predecessorId] == e.0.body.predecessorId.seal
    ensures Resource(e) in q.currentSeals
  {
    hide Placed, Successor;
  }

  /** Advancing by an entry and installing its seal come to the same, whether or not its twin was applied before. */
  lemma OneMore(p: ProtocolState, es: set<Entry>, q: ProtocolState, e: Entry, applied: set<Digest>)
    requires AllClaim(p.currentSeals, p.knownSeals, es + {e}) && AllClaim(p.currentSeals, p.knownSeals, es)
    requires NoForkIn(es + {e}) && After(p, es, q) && Good(q, applied) && e.0.Id() in q.closures
    ensures q.Advance(e.0) == Outcome(q.Install(NewSeal(e)), Ok(NewSeal(e)))
    ensures After(p, es + {e}, q.Install(NewSeal(e)))
    ensures Good(q.Install(NewSeal(e)), applied + {e.0.Id()}) && Grows(q, q.Install(NewSeal(e)))
    ensures KeepsPlaces(q.knownSeals, q.Install(NewSeal(e)).knownSeals)
  {
    hide Good, Grows, Updated, NoForkIn, AllClaim, Claims, KeepsPlaces;
    assert Claims(p.currentSeals, p.knownSeals, e) by { ClaimsOf(p.currentSeals, p.knownSeals, es + {e}, e); }
    assert e.0.body.predecessorId.SealDigest? by { ClaimSeal(p.currentSeals, p.knownSeals, e); }
    KeepsClaim(p, es, q, e);
    AdvanceKeeps(q, e.0, applied);
    if f :| f in es && f.0.body.predecessorId == e.0.body.predecessorId {
      RepeatedEntry(p.currentSeals, p.knownSeals, es, q.currentSeals, q.knownSeals, e, f);
    } else {
      FreshEntry(p.currentSeals, p.knownSeals, es, q.currentSeals, q.knownSeals, e);
      FreshSeal(q, e, applied);
      FreshInstalled(p.currentSeals, p.knownSeals, es, q.currentSeals, q.knownSeals, e);
    }
  }

  lemma FreshSeal(q: ProtocolState, e: Entry, applied: set<Digest>)
    requires Good(q, applied) && e.0.body.predecessorId.SealDigest? && e.0.body.predecessorId in q.knownSeals
    requires q.knownSeals[e.0.body.predecessorId] == e.0.body.predecessorId.seal
    requires Resource(e) in q.currentSeals && q.currentSeals[Resource(e)] == e.0.body.predecessorId.seal
    ensures NewSeal(e).Id() !in q.knownSeals
  {
    hide Linked, Filed, Recorded, AllApplied, Next, Successor;
    SuccessorIsNext(q.currentSeals, q.knownSeals, e.0.body);
    NextIsNew(q.currentSeals, q.knownSeals, NewSeal(e));
  }

  lemma ClaimsOf(current: Heads, known: Seals, es: set<Entry>, e: Entry)
    requires AllClaim(current, known, es) && e in es
    ensures Claims(current, known, e)
  {}

  lemma ClaimSeal(current: Heads, known: Seals, e: Entry)
    requires Claims(current, known, e)
    ensures e.0.body.predecessorId.SealDigest?
  {}

  // ----- The whole bundle

  /** Applying the entries one at a time, stopping at the first that raises. */
  ghost function ApplyAll(p: ProtocolState, entries: seq<Entry>): Outcome<()> {
    if entries == [] then Outcome(p, Ok(()))
    else
      var before := ApplyAll(p, entries[..|entries| - 1]);
      var last := entries[|entries| - 1];
      if before.result.Err? then before
      else
        var o := before.state.Apply(last.0, last.1);
        Outcome(o.state, if o.result.Ok? then Ok(()) else Err(o.result.error))
  }

  ghost predicate AllReady(p: ProtocolState, es: set<Entry>) { forall e :: e in es ==> p.EntryReady(e) }

  lemma ReadyClaims(p: ProtocolState, es: set<Entry>, applied: set<Digest>)
    requires Good(p, applied) && AllReady(p, es)
    ensures AllClaim(p.currentSeals, p.knownSeals, es)
  {
    forall e | e in es ensures Claims(p.currentSeals, p.knownSeals, e) {
      assert p.EntryReady(e);
      hide ProtocolState.VerifyClosure, Filed, Recorded, AllApplied, CurrentIsLast, OneSealPerVersion, AllGrown;
    }
  }

  lemma ElementsSplit(entries: seq<Entry>)
    requires entries != []
    ensures Elements(entries) == Elements(entries[..|entries| - 1]) + {entries[|entries| - 1]}
    ensures EntryIds(entries) == EntryIds(entries[..|entries| - 1]) + {entries[|entries| - 1].0.Id()}
  {
    assert entries == entries[..|entries| - 1] + [entries[|entries| - 1]];
  }

  lemma NextSealsSplit(entries: seq<Entry>)
    requires entries != [] && forall i :: 0 <= i < |entries| ==> entries[i].0.body.predecessorId.SealDigest?
    ensures NextSeals(entries) == NextSeals(entries[..|entries| - 1]) + [NewSeal(entries[|entries| - 1])]
  {
    hide Successor;
  }

  lemma UpdatedByNothing(p: ProtocolState)
    ensures AllClaim(p.currentSeals, p.knownSeals, {}) && After(p, {}, p)
  {
    assert NewIds({}) == {};
  }

  lemma SubsetFacts(p: ProtocolState, es: set<Entry>, fs: set<Entry>)
    requires es <= fs && NoForkIn(fs) && AllClaim(p.currentSeals, p.knownSeals, fs)
    ensures NoForkIn(es) && AllClaim(p.currentSeals, p.knownSeals, es)
  {}

  lemma ReadyHasClosure(p: ProtocolState, es: set<Entry>, e: Entry)
    requires AllReady(p, es) && e in es
    ensures e.0.Id() in p.closures && p.EntryReady(e)
  {
    assert p.EntryReady(e);
    hide ProtocolState.VerifyClosure;
  }

  lemma {:induction false} InstallAllAfter(p: ProtocolState, entries: seq<Entry>, applied: set<Digest>)
    requires Good(p, applied) && AllReady(p, Elements(entries)) && NoForkIn(Elements(entries))
    requires AllClaim(p.currentSeals, p.knownSeals, Elements(entries))
    requires forall i :: 0 <= i < |entries| ==> entries[i].0.body.predecessorId.SealDigest?
    ensures var q := p.InstallAll(NextSeals(entries));
            && After(p, Elements(entries), q) && Good(q, applied + EntryIds(entries))
            && KeepsPlaces(p.knownSeals, q.knownSeals)
  {
    hide OneSealPerVersion, Good, Grows, AllReady, AllClaim, NoForkIn, Updated, Elements, EntryIds, NextSeals, NewSeal, Claims;
    if entries == [] {
      NothingInstalled(p, entries, applied);
    } else {
      var n := |entries| - 1;
      ElementsSplit(entries);
      NextSealsSplit(entries);
      var es, e := Elements(entries[..n]), entries[n];
      SubsetFacts(p, es, es + {e});
      ReadySubset(p, es, es + {e});
      InstallAllAfter(p, entries[..n], applied);
      var q := p.InstallAll(NextSeals(entries[..n]));
      ReadyHasClosure(p, es + {e}, e);
      OneMore(p, es, q, e, applied + EntryIds(entries[..n]));
      assert applied + EntryIds(entries[..n]) + {e.0.Id()} == applied + EntryIds(entries);
    }
  }

  lemma ReadySubset(p: ProtocolState, es: set<Entry>, fs: set<Entry>)
    requires es <= fs && AllReady(p, fs)
    ensures AllReady(p, es)
  {
    hide ProtocolState.EntryReady;
  }

  lemma NothingInstalled(p: ProtocolState, entries: seq<Entry>, applied: set<Digest>)
    requires entries == [] && Good(p, applied)
    ensures NextSeals(entries) == [] && Elements(entries) == {} && EntryIds(entries) == {}
    ensures AllClaim(p.currentSeals, p.knownSeals, Elements(entries))
    ensures After(p, Elements(entries), p) && Good(p, applied + EntryIds(entries))
  {
    hide Good;
    UpdatedByNothing(p);
    assert applied + {} == applied;
  }

  /** The checks on an entry do not look at the seals apply changes, so applying it is advancing by it. */
  lemma ReadyApplies(p: ProtocolState, q: ProtocolState, e: Entry)
    requires p.EntryReady(e) && q == p.(currentSeals := q.currentSeals, knownSeals := q.knownSeals)
    ensures q.Apply(e.0, e.1) == q.Advance(e.0)
  {
    SameVerification(p, q, e.0, e.1);
    hide ProtocolState.VerifyClosure, ProtocolState.Advance;
  }

  lemma SameVerification(p: ProtocolState, q: ProtocolState, c: Capsule, proof: Proof)
    requires q.members == p.members && q.epoch == p.epoch && q.capsules == p.capsules
    ensures p.VerifyClosure(c, proof) == q.VerifyClosure(c, proof)
  {
    hide LastReceipts, Signers, SortByWitness, ReceiptIds, ReceiptWeight;
    forall r: WitnessReceipt ensures p.Counts(r, Accept, c.Id()) == q.Counts(r, Accept, c.Id()) {}
    hide ProtocolState.Counts;
  }

  lemma {:induction false} ApplyAllAfter(p: ProtocolState, entries: seq<Entry>, applied: set<Digest>)
    requires Good(p, applied) && AllReady(p, Elements(entries)) && NoForkIn(Elements(entries))
    requires AllClaim(p.currentSeals, p.knownSeals, Elements(entries))
    ensures var o := ApplyAll(p, entries);
            o.result == Ok(()) && After(p, Elements(entries), o.state) && Good(o.state, applied + EntryIds(entries))
  {
    hide Good, Grows, AllReady, AllClaim, NoForkIn, Updated, Elements, EntryIds, NewSeal, Claims,
         ProtocolState.Apply, ProtocolState.Advance, ProtocolState.EntryReady;
    if entries == [] {
      NothingInstalled(p, entries, applied);
    } else {
      var n := |entries| - 1;
      ElementsSplit(entries);
      var es, e := Elements(entries[..n]), entries[n];
      SubsetFacts(p, es, es + {e});
      ReadySubset(p, es, es + {e});
      ApplyAllAfter(p, entries[..n], applied);
      var q := ApplyAll(p, entries[..n]).state;
      ReadyHasClosure(p, es + {e}, e);
      OneMore(p, es, q, e, applied + EntryIds(entries[..n]));
      ReadyApplies(p, q, e);
      assert applied + EntryIds(entries[..n]) + {e.0.Id()} == applied + EntryIds(entries);
    }
  }

  lemma ReadyBundle(p: ProtocolState, bundle: BundleClosure, entries: seq<Entry>)
    requires p.BundleReady(bundle, entries)
    ensures AllReady(p, Elements(entries))
    ensures forall i :: 0 <= i < |entries| ==> entries[i].0.body.predecessorId.SealDigest?
  {
    forall e | e in Elements(entries) ensures p.EntryReady(e) {}
    forall i | 0 <= i < |entries| ensures entries[i].0.body.predecessorId.SealDigest? {
      assert p.EntryReady(entries[i]);
    }
    hide ProtocolState.EntryReady;
  }

  /** A bundle without forks leaves exactly what applying its entries one by one, in any order, leaves. */
  lemma BundleInAnyOrder(p: ProtocolState, applied: set<Digest>, bundle: BundleClosure, entries: seq<Entry>,
                         order: seq<Entry>)
    requires Good(p, applied) && p.BundleReady(bundle, entries) && NoForkIn(Elements(entries))
    requires Elements(order) == Elements(entries)
    ensures ApplyAll(p, order) == Outcome(p.ApplyBundle(bundle, entries).state, Ok(()))
    ensures Good(p.ApplyBundle(bundle, entries).state, applied + EntryIds(entries))
    ensures KeepsPlaces(p.knownSeals, p.ApplyBundle(bundle, entries).state.knownSeals)
  {
    hide KeepsPlaces, Good, AllReady, AllClaim, NoForkIn, Updated, Elements, EntryIds, NextSeals, ApplyAll,
         ProtocolState.BundleReady, ProtocolState.InstallAll;
    ReadyBundle(p, bundle, entries);
    ReadyClaims(p, Elements(entries), applied);
    InstallAllAfter(p, entries, applied);
    ApplyAllAfter(p, order, applied);
    var q, q' := p.InstallAll(NextSeals(entries)), ApplyAll(p, order).state;
    UpdatedUnique(p.currentSeals, p.knownSeals, Elements(entries), q.currentSeals, q.knownSeals,
                  q'.currentSeals, q'.knownSeals);
  }

  // ----- Bundles with forks

  lemma {:induction false} InstalledKnown(p: ProtocolState, seals: seq<StateSeal>)
    ensures forall i :: 0 <= i < |seals| ==>
              seals[i].Id() in p.InstallAll(seals).knownSeals && p.InstallAll(seals).knownSeals[seals[i].Id()] == seals[i]
  {
    if seals != [] {
      var n := |seals| - 1;
      InstalledKnown(p, seals[..n]);
      assert forall i :: 0 <= i < n ==> seals[..n][i] == seals[i];
    }
  }

  lemma ForkBreaksChain(p: ProtocolState, bundle: BundleClosure, entries: seq<Entry>)
    requires p.BundleReady(bundle, entries) && !NoForkIn(Elements(entries))
    ensures !OneSealPerVersion(p.ApplyBundle(bundle, entries).state.knownSeals)
  {
    hide ProtocolState.BundleReady, ProtocolState.InstallAll;
    ReadyBundle(p, bundle, entries);
    var seals := NextSeals(entries);
    InstalledKnown(p, seals);
    var known := p.InstallAll(seals).knownSeals;
    var e, f :| e in Elements(entries) && f in Elements(entries)
                && e.0.body.predecessorId == f.0.body.predecessorId && e.0.body != f.0.body;
    var i :| 0 <= i < |entries| && entries[i] == e;
    var j :| 0 <= j < |entries| && entries[j] == f;
    assert seals[i].Id() in known && seals[j].Id() in known;
    assert SamePlace(seals[i], seals[j]) && seals[i] != seals[j];
  }

  /** The resources' current seals have moved one version on, or not at all. */
  ghost predicate OneOn(current: Heads, current': Heads) {
    forall r :: r in current ==>
      r in current' && (current'[r] == current[r] || current'[r].version == current[r].version + 1)
  }

  /** Installing an entry's seal, whatever was installed for its predecessor before. */
  lemma OneMoreFork(p: ProtocolState, q: ProtocolState, e: Entry, applied: set<Digest>)
    requires Good(q, applied) && Grows(p, q) && OneOn(p.currentSeals, q.currentSeals)
    requires Claims(p.currentSeals, p.knownSeals, e) && e.0.Id() in q.closures
    ensures var r := q.Install(NewSeal(e));
            Good(r, applied + {e.0.Id()}) && Grows(p, r) && OneOn(p.currentSeals, r.currentSeals)
  {
    var r := q.Install(NewSeal(e));
    NearClaim(p, q, e);
    OneOnInstalled(p, q, e);
    hide Good, Successor, Grows, OneOn, Claims, Near;
    SecondKeeps(q, e.0.body, applied);
    hide NewSeal;
    GrowsThrough(p, q, r);
  }

  lemma NearClaim(p: ProtocolState, q: ProtocolState, e: Entry)
    requires Grows(p, q) && OneOn(p.currentSeals, q.currentSeals) && Claims(p.currentSeals, p.knownSeals, e)
    ensures e.0.body.predecessorId in q.knownSeals
    ensures q.knownSeals[e.0.body.predecessorId] == e.0.body.predecessorId.seal
    ensures Near(q.currentSeals, e.0.body.predecessorId.seal)
  {
    hide KeepsEvidence;
  }

  lemma OneOnInstalled(p: ProtocolState, q: ProtocolState, e: Entry)
    requires OneOn(p.currentSeals, q.currentSeals) && Claims(p.currentSeals, p.knownSeals, e)
    ensures OneOn(p.currentSeals, q.Install(NewSeal(e)).currentSeals)
  {
    NewSealPlace(e);
    NewSealVersion(e);
    hide NewSeal;
  }

  lemma NewSealVersion(e: Entry)
    requires e.0.body.predecessorId.SealDigest?
    ensures NewSeal(e).version == e.0.body.predecessorId.seal.version + 1
  {}

  /** Installing all seals of a bundle, with forks or without, keeps all but the one seal per version. */
  lemma {:induction false} InstallAllKeeps(p: ProtocolState, entries: seq<Entry>, applied: set<Digest>)
    requires Good(p, applied) && AllReady(p, Elements(entries)) && AllClaim(p.currentSeals, p.knownSeals, Elements(entries))
    requires forall i :: 0 <= i < |entries| ==> entries[i].0.body.predecessorId.SealDigest?
    ensures var q := p.InstallAll(NextSeals(entries));
            && Good(q, applied + EntryIds(entries)) && Grows(p, q) && OneOn(p.currentSeals, q.currentSeals)
            && q.closures == p.closures
  {
    hide Good, Grows, AllReady, AllClaim, Elements, EntryIds, NextSeals, NewSeal, Claims, OneOn;
    if entries == [] {
      NothingInstalled(p, entries, applied);
      GrowsSelf(p);
      NoneOn(p.currentSeals);
    } else {
      var n := |entries| - 1;
      ElementsSplit(entries);
      NextSealsSplit(entries);
      var es, e := Elements(entries[..n]), entries[n];
      ReadySubset(p, es, es + {e});
      ClaimSubset(p.currentSeals, p.knownSeals, es, es + {e});
      InstallAllKeeps(p, entries[..n], applied);
      ReadyHasClosure(p, es + {e}, e);
      ClaimsOf(p.currentSeals, p.knownSeals, es + {e}, e);
      OneMoreFork(p, p.InstallAll(NextSeals(entries[..n])), e, applied + EntryIds(entries[..n]));
      assert applied + EntryIds(entries[..n]) + {e.0.Id()} == applied + EntryIds(entries);
    }
  }

  lemma NoneOn(current: Heads)
    ensures OneOn(current, current)
  {}

  lemma ClaimSubset(current: Heads, known: Seals, es: set<Entry>, fs: set<Entry>)
    requires es <= fs && AllClaim(current, known, fs)
    ensures AllClaim(current, known, es)
  {
    hide Claims;
  }

  /** A bundle that passes its checks keeps all of that and records its capsules. */
  lemma BundleKeeps(p: ProtocolState, applied: set<Digest>, bundle: BundleClosure, entries: seq<Entry>)
    requires Good(p, applied) && p.BundleReady(bundle, entries)
    ensures var q := p.ApplyBundle(bundle, entries).state; Good(q, applied + EntryIds(entries)) && Grows(p, q)
  {
    hide Good, Grows, AllReady, AllClaim, Elements, EntryIds, NextSeals, ProtocolState.BundleReady, ProtocolState.InstallAll;
    ReadyBundle(p, bundle, entries);
    ReadyClaims(p, Elements(entries), applied);
    InstallAllKeeps(p, entries, applied);
  }

  /** apply_bundle keeps the seal chains exactly when the bundle has no fork. */
  lemma BundleKeepsChainExactly(p: ProtocolState, applied: set<Digest>, bundle: BundleClosure, entries: seq<Entry>)
    requires Good(p, applied) && OneSealPerVersion(p.knownSeals) && p.BundleReady(bundle, entries)
    ensures var q := p.ApplyBundle(bundle, entries).state;
            Chained(q.currentSeals, q.knownSeals) <==> NoForkIn(Elements(entries))
  {
    hide Elements, ProtocolState.ApplyBundle, ProtocolState.BundleReady, NoForkIn, ApplyAll;
    if NoForkIn(Elements(entries)) {
      BundleInAnyOrder(p, applied, bundle, entries, entries);
    } else {
      ForkBreaksChain(p, bundle, entries);
    }
  }
}
