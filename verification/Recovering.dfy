/**
 What recovery may return on any shards at all, genuine or not: only a payload whose digest the chosen shards carry, and
 that exactly when they agree with one another and with whole data shards that hold it.
 */
module Recovering {
  import opened Results
  import opened GaloisField
  import opened LinearAlgebra
  import opened Vandermonde
  import opened ErasureCodec

  // ----- What is encoded

  /** Shards are no longer than they need be: k of them hold the frame, and k a byte shorter would not. */
  lemma ShardsAreShort(c: Codec, payload: Vector)
    requires c.Valid()
    ensures c.ShardSize(payload) * c.dataShards >= 8 + |payload| > (c.ShardSize(payload) - 1) * c.dataShards
  {
    c.SizeFits(payload);
    var n, k := 8 + |payload|, c.dataShards;
    var q := n + k - 1;
    assert q == (q / k) * k + q % k && 0 <= q % k < k;
    assert (q / k - 1) * k == (q / k) * k - k;
  }

  /** The first k shards are the frame itself, cut up: eight bytes of length, the payload, and zeros. */
  lemma DataInPlain(c: Codec, payload: Vector)
    requires c.Valid() && |payload| < LENGTH_LIMIT
    ensures |c.EncodedPayloads(payload)| >= c.dataShards
    ensures var data := c.EncodedPayloads(payload)[..c.dataShards];
            && SameWidth(data, c.ShardSize(payload))
            && |Join(data)| >= 8 + |payload|
            && Join(data)[..8] == BigEndian(|payload|, 8) && Join(data)[8..8 + |payload|] == payload
            && forall i :: 8 + |payload| <= i < |Join(data)| ==> Join(data)[i] == 0
  {
    hide Dot;
    var data, size := c.DataShards(payload), c.ShardSize(payload);
    c.SizeFits(payload);
    var all := c.EncodedPayloads(payload);
    forall i | 0 <= i < c.dataShards ensures all[i] == data[i] {
      UnitRowCopies(c, data, size, i);
    }
    assert all[..c.dataShards] == data;
    JoinIsPadded(c, payload);
  }

  lemma UnitRowCopies(c: Codec, data: seq<Vector>, size: nat, i: nat)
    requires c.Valid() && |data| == c.dataShards && SameWidth(data, size) && i < c.dataShards
    ensures |ApplyShards(c.Generator(), data, size)| == c.TotalShards()
    ensures ApplyShards(c.Generator(), data, size)[i] == data[i]
  {
    var row := ApplyShards(c.Generator(), data, size)[i];
    assert c.Generator()[i] == UnitRow(c.dataShards, i);
    forall t | 0 <= t < size ensures row[t] == data[i][t] {
      DotUnit(Slice(data, t), c.dataShards, i);
    }
    hide Dot;
    assert row == data[i];
  }

  lemma JoinIsPadded(c: Codec, payload: Vector)
    requires c.Valid()
    ensures c.ShardSize(payload) * c.dataShards >= 8 + |payload| && Join(c.DataShards(payload)) == c.Padded(payload)
  {
    c.SizeFits(payload);
    ChunksSpec(c.Padded(payload), c.ShardSize(payload), c.dataShards);
  }

  // ----- Which shards are chosen

  /** The shard of this index that comes last in the list. */
  ghost predicate LastOfIndex(shards: seq<ErasureShard>, s: ErasureShard) {
    exists n :: 0 <= n < |shards| && shards[n] == s && forall m :: n < m < |shards| ==> shards[m].shardIndex != s.shardIndex
  }

  lemma {:induction false} ShardMapKeepsLast(shards: seq<ErasureShard>, i: int)
    requires i in ShardMap(shards)
    ensures LastOfIndex(shards, ShardMap(shards)[i])
  {
    hide LastOfIndex;
    var n := |shards| - 1;
    if shards[n].shardIndex == i {
      LastIsLast(shards);
    } else {
      ShardMapKeepsLast(shards[..n], i);
      LastStaysLast(shards, ShardMap(shards)[i]);
    }
  }

  lemma LastIsLast(shards: seq<ErasureShard>)
    requires shards != []
    ensures LastOfIndex(shards, shards[|shards| - 1])
  {}

  lemma LastStaysLast(shards: seq<ErasureShard>, s: ErasureShard)
    requires shards != [] && LastOfIndex(shards[..|shards| - 1], s) && shards[|shards| - 1].shardIndex != s.shardIndex
    ensures LastOfIndex(shards, s)
  {
    var n := |shards| - 1;
    var init := shards[..n];
    var k :| 0 <= k < n && init[k] == s && forall m :: k < m < n ==> init[m].shardIndex != s.shardIndex;
    forall m | k < m < |shards| ensures shards[m].shardIndex != s.shardIndex {
      if m < n { assert init[m].shardIndex != s.shardIndex; }
    }
    assert shards[k] == s;
  }

  lemma LowestFirst(s: set<int>, k: nat, x: int)
    requires k <= |s| && x in s
    ensures x in SortedIndices(s)[..k] || forall i :: 0 <= i < k ==> SortedIndices(s)[i] < x
  {
    SortedComplete(s, x);
    var r := SortedIndices(s);
    var n :| 0 <= n < |r| && r[n] == x;
    if n < k {
      assert r[..k][n] == x;
    } else {
      forall i | 0 <= i < k ensures r[i] < x { SortedIncreases(s, i, n); }
    }
  }

  /** Recovery works on the k lowest indices there are, and on the last shard given for each. */
  lemma SelectedIsLowest(c: Codec, shards: seq<ErasureShard>)
    requires c.Valid() && |ShardMap(shards)| >= c.dataShards
    ensures forall i :: 0 <= i < c.dataShards ==> LastOfIndex(shards, c.Selected(shards)[i])
    ensures forall s :: s in shards ==>
              || (exists i :: 0 <= i < c.dataShards && c.Selected(shards)[i].shardIndex == s.shardIndex)
              || (forall i :: 0 <= i < c.dataShards ==> c.Selected(shards)[i].shardIndex < s.shardIndex)
  {
    hide SortedIndices, LastOfIndex, ShardMap;
    var m, chosen := ShardMap(shards), c.Selected(shards);
    var keys := SortedIndices(m.Keys);
    forall i | 0 <= i < c.dataShards ensures LastOfIndex(shards, chosen[i]) { ShardMapKeepsLast(shards, keys[i]); }
    forall s | s in shards
      ensures || (exists i :: 0 <= i < c.dataShards && chosen[i].shardIndex == s.shardIndex)
              || (forall i :: 0 <= i < c.dataShards ==> chosen[i].shardIndex < s.shardIndex)
    {
      LowestFirst(m.Keys, c.dataShards, s.shardIndex);
      if s.shardIndex in keys[..c.dataShards] {
        var i :| 0 <= i < c.dataShards && keys[..c.dataShards][i] == s.shardIndex;
        assert chosen[i].shardIndex == s.shardIndex;
      }
    }
  }

  // ----- The inverse works from both sides

  /** What elimination returns solves every system, and solves it only that way. */
  lemma SolvesExactly(m: Matrix, x: Vector, z: Vector)
    requires |m| > 0 && IsMatrix(m, |m|, |m|) && GaussJordan(m).Some? && |x| == |z| == |m|
    ensures Apply(m, x) == z <==> Apply(GaussJordan(m).value, z) == x
  {
    hide Dot, PivotFrom, ClearFrom, Normalize, EliminateFrom, Annihilates;
    var n := |m|;
    EliminateStep(Augment(m), n, 0);
    var e := EliminateFrom(Augment(m), 0);
    AugmentedKernel(m, n, x, z);
    ReducedKernel(e.value, n, x, z);
    SameAnnihilated(Augment(m), e.value, x + z);
  }

  lemma SameAnnihilated(m: Matrix, m': Matrix, y: Vector)
    requires SameKernel(m, m')
    ensures Annihilates(m, y) <==> Annihilates(m', y)
  {}

  lemma SolvedShards(m: Matrix, shards: seq<Vector>, width: nat)
    requires |m| > 0 && IsMatrix(m, |m|, |m|) && GaussJordan(m).Some? && |shards| == |m| && SameWidth(shards, width)
    ensures var data := ApplyShards(GaussJordan(m).value, shards, width);
            |GaussJordan(m).value| == |m| && SameWidth(data, width) && ApplyShards(m, data, width) == shards
  {
    hide Dot, GaussJordan;
    GaussJordanCorrect(m);
    var r := GaussJordan(m).value;
    InverseSize(m);
    var data := ApplyShards(r, shards, width);
    var coded := ApplyShards(m, data, width);
    forall i, t | 0 <= i < |m| && 0 <= t < width ensures coded[i][t] == shards[i][t] {
      var z := Slice(shards, t);
      assert Slice(data, t) == Apply(r, z);
      SolvesExactly(m, Apply(r, z), z);
      assert Apply(m, Apply(r, z))[i] == z[i];
    }
    forall i | 0 <= i < |m| ensures coded[i] == shards[i] {}
  }

  lemma InverseSize(m: Matrix)
    requires |m| > 0 && IsMatrix(m, |m|, |m|) && GaussJordan(m).Some?
    ensures |GaussJordan(m).value| == |m|
  {
    hide EliminateFrom;
  }

  // ----- What decoding returns

  ghost predicate Indexed(c: Codec, chosen: seq<ErasureShard>) {
    |chosen| == c.dataShards && forall i :: 0 <= i < |chosen| ==> 0 <= chosen[i].shardIndex < c.TotalShards()
  }

  /** These are whole data shards, and the chosen payloads are their coded rows. */
  ghost predicate Explains(c: Codec, chosen: seq<ErasureShard>, data: seq<Vector>, width: nat)
    requires c.Valid() && Indexed(c, chosen)
  {
    && |data| == c.dataShards && SameWidth(data, width)
    && ApplyShards(ChosenRows(c.dataShards, c.RowsOf(chosen)), data, width) == c.PayloadsOf(chosen)
  }

  ghost predicate Carries(c: Codec, chosen: seq<ErasureShard>, p: Vector)
    requires c.Valid() && Indexed(c, chosen)
  {
    exists data, width :: Explains(c, chosen, data, width) && Unframe(Join(data)) == p
  }

  lemma ExplainedWidth(c: Codec, chosen: seq<ErasureShard>, data: seq<Vector>, width: nat)
    requires c.Valid() && Indexed(c, chosen) && Explains(c, chosen, data, width)
    ensures SameWidth(c.PayloadsOf(chosen), width) && |c.PayloadsOf(chosen)| == c.dataShards > 0
  {
    var m := ChosenRows(c.dataShards, c.RowsOf(chosen));
    assert SameWidth(ApplyShards(m, data, width), width);
  }

  lemma DecodeExactly(c: Codec, chosen: seq<ErasureShard>, p: Vector)
    requires c.Valid() && Indexed(c, chosen)
    ensures c.Decode(chosen) == Ok(p) <==>
            Invertible(ChosenRows(c.dataShards, c.RowsOf(chosen))) && Carries(c, chosen, p)
  {
    hide GaussJordan, Invertible, LeftInverse, Dot, Unframe, Join, CodecRow;
    var m, payloads := ChosenRows(c.dataShards, c.RowsOf(chosen)), c.PayloadsOf(chosen);
    GaussJordanCorrect(m);
    if GaussJordan(m).Some? {
      var r := GaussJordan(m).value;
      if SameWidth(payloads, |payloads[0]|) {
        SolvedShards(m, payloads, |payloads[0]|);
        assert Explains(c, chosen, ApplyShards(r, payloads, |payloads[0]|), |payloads[0]|);
      }
      if Carries(c, chosen, p) {
        var data, width :| Explains(c, chosen, data, width) && Unframe(Join(data)) == p;
        ExplainedWidth(c, chosen, data, width);
        ApplyShardsInverse(r, m, data, width);
      }
    }
  }

  // ----- What recovery returns

  /** The chosen shards verify, belong to this codec, and agree on object and content digest. */
  ghost predicate Concordant(c: Codec, chosen: seq<ErasureShard>) {
    && (forall i :: 0 <= i < |chosen| ==>
          chosen[i].Verify() && chosen[i].totalShards == c.TotalShards() && chosen[i].dataShards == c.dataShards)
    && (forall i, j :: 0 <= i < |chosen| && 0 <= j < |chosen| ==>
          chosen[i].objectId == chosen[j].objectId && chosen[i].contentDigest == chosen[j].contentDigest)
  }

  lemma AgreePassesChecks(c: Codec, chosen: seq<ErasureShard>)
    requires c.Valid() && |chosen| == c.dataShards
    ensures c.CheckChosen(chosen).None? <==> Concordant(c, chosen)
    ensures Concordant(c, chosen) ==> Indexed(c, chosen)
  {
    hide ErasureShard.Verify;
    if c.CheckChosen(chosen).None? {
      assert forall i :: 0 <= i < |chosen| ==> c.Compatible(chosen[0], chosen[i]);
    }
    if Concordant(c, chosen) { AgreeIndexed(c, chosen); }
  }

  lemma AgreeIndexed(c: Codec, chosen: seq<ErasureShard>)
    requires c.Valid() && |chosen| == c.dataShards && Concordant(c, chosen)
    ensures Indexed(c, chosen)
  {}

  /**
   Over any shards, recovery returns p exactly when there are k distinct indices and the shards chosen for the lowest of
   them agree, have invertible rows, hold p, and carry the digest of p. In every other case it raises.
   */
  lemma RecoverExactly(c: Codec, shards: seq<ErasureShard>, p: Vector)
    requires c.Valid()
    ensures c.RecoverSpec(shards) == Ok(p) <==>
            && |ShardMap(shards)| >= c.dataShards
            && var chosen := c.Selected(shards);
            && Concordant(c, chosen) && Indexed(c, chosen)
            && Invertible(ChosenRows(c.dataShards, c.RowsOf(chosen)))
            && Carries(c, chosen, p)
            && forall i :: 0 <= i < c.dataShards ==> chosen[i].contentDigest == ObjectData(p)
  {
    hide Codec.Decode, Codec.Selected, Codec.CheckChosen, Invertible, Carries, ShardMap, ErasureShard.Verify;
    if |ShardMap(shards)| >= c.dataShards {
      var chosen := c.Selected(shards);
      AgreePassesChecks(c, chosen);
      if Concordant(c, chosen) { DecodeExactly(c, chosen, p); }
    }
  }

  /** What recovery returns has the digest of every chosen shard: no relabelled content gets through. */
  lemma RecoveredMatchesDigest(c: Codec, shards: seq<ErasureShard>)
    requires c.Valid() && c.RecoverSpec(shards).Ok?
    ensures |ShardMap(shards)| >= c.dataShards
    ensures forall i :: 0 <= i < c.dataShards ==>
              c.Selected(shards)[i].contentDigest == ObjectData(c.RecoverSpec(shards).value)
  {
    RecoverExactly(c, shards, c.RecoverSpec(shards).value);
    hide *;
  }

  /** Repair returns, for the missing indices in order, the genuine shards of what it recovered, for the first shard's object. */
  lemma RepairExactly(c: Codec, shards: seq<ErasureShard>, missing: seq<int>)
    requires c.Valid() && c.RecoverSpec(shards).Ok?
    ensures var r := c.RepairSpec(shards, missing);
            && shards != []
            && (r.Ok? <==> shards[0].objectId != "" && |c.RecoverSpec(shards).value| < LENGTH_LIMIT
                           && forall i :: i in missing ==> 0 <= i < c.TotalShards())
            && (r.Ok? ==>
                  && (forall s :: s in r.value ==> c.Genuine(shards[0].objectId, c.RecoverSpec(shards).value, s))
                  && (forall i :: i in missing <==> exists s :: s in r.value && s.shardIndex == i)
                  && forall i, j :: 0 <= i < j < |r.value| ==> r.value[i].shardIndex < r.value[j].shardIndex)
  {
    hide Codec.RecoverSpec, Codec.EncodedPayloads, SortedIndices, Codec.EncodeSpec, Codec.InRange, Codec.Genuine, PickShards;
    if shards == [] { NothingRecovered(c); }
    var p := c.RecoverSpec(shards).value;
    InRangeMeans(c, missing);
    EncodesExactly(c, shards[0].objectId, p);
    if c.EncodeSpec(shards[0].objectId, p).Ok? && c.InRange(missing) {
      WantedIndices(c, shards[0].objectId, p, missing);
      RepairedShards(c, shards[0].objectId, p, missing,
                     PickShards(c.EncodeSpec(shards[0].objectId, p).value, SortedIndices(Indices(missing))));
    }
  }

  lemma InRangeMeans(c: Codec, missing: seq<int>)
    ensures c.InRange(missing) <==> forall i :: i in missing ==> 0 <= i < c.TotalShards()
  {
    if c.InRange(missing) {
      forall i | i in missing ensures 0 <= i < c.TotalShards() {
        var j :| 0 <= j < |missing| && missing[j] == i;
      }
    }
    if forall i :: i in missing ==> 0 <= i < c.TotalShards() {
      forall j | 0 <= j < |missing| ensures 0 <= missing[j] < c.TotalShards() { assert missing[j] in missing; }
    }
  }

  lemma EncodesExactly(c: Codec, objectId: string, p: Vector)
    requires c.Valid()
    ensures c.EncodeSpec(objectId, p).Ok? <==> objectId != "" && |p| < LENGTH_LIMIT
    ensures c.EncodeSpec(objectId, p).Ok? ==> |c.EncodeSpec(objectId, p).value| == c.TotalShards()
  {
    hide Codec.EncodedPayloads;
  }

  lemma WantedIndices(c: Codec, objectId: string, p: Vector, missing: seq<int>)
    requires c.Valid() && c.InRange(missing) && c.EncodeSpec(objectId, p).Ok?
    ensures forall j :: 0 <= j < |SortedIndices(Indices(missing))| ==>
              0 <= SortedIndices(Indices(missing))[j] < |c.EncodeSpec(objectId, p).value|
  {
    hide Codec.EncodedPayloads, SortedIndices;
    InRangeMeans(c, missing);
    EncodesExactly(c, objectId, p);
    var wanted := SortedIndices(Indices(missing));
    forall j | 0 <= j < |wanted| ensures 0 <= wanted[j] < |c.EncodeSpec(objectId, p).value| {
      assert wanted[j] in Indices(missing);
    }
  }

  lemma RepairedShards(c: Codec, objectId: string, p: Vector, missing: seq<int>, repaired: seq<ErasureShard>)
    requires c.Valid() && c.InRange(missing) && c.EncodeSpec(objectId, p).Ok?
    requires forall j :: 0 <= j < |SortedIndices(Indices(missing))| ==>
               0 <= SortedIndices(Indices(missing))[j] < |c.EncodeSpec(objectId, p).value|
    requires repaired == PickShards(c.EncodeSpec(objectId, p).value, SortedIndices(Indices(missing)))
    ensures forall s :: s in repaired ==> c.Genuine(objectId, p, s)
    ensures forall i :: i in missing <==> exists s :: s in repaired && s.shardIndex == i
    ensures forall i, j :: 0 <= i < j < |repaired| ==> repaired[i].shardIndex < repaired[j].shardIndex
  {
    hide Codec.EncodedPayloads, SortedIndices;
    var all, wanted := c.EncodeSpec(objectId, p).value, SortedIndices(Indices(missing));
    forall j | 0 <= j < |repaired| ensures repaired[j].shardIndex == wanted[j] && c.Genuine(objectId, p, repaired[j]) {
      assert repaired[j] == all[wanted[j]];
    }
    forall i ensures i in missing <==> exists s :: s in repaired && s.shardIndex == i {
      if i in missing {
        SortedComplete(Indices(missing), i);
        var j :| 0 <= j < |wanted| && wanted[j] == i;
        assert repaired[j] in repaired;
      }
      if s :| s in repaired && s.shardIndex == i {
        var j :| 0 <= j < |repaired| && repaired[j] == s;
        assert wanted[j] in Indices(missing);
      }
    }
    forall i, j | 0 <= i < j < |repaired| ensures repaired[i].shardIndex < repaired[j].shardIndex {
      SortedIncreases(Indices(missing), i, j);
    }
  }

  // ----- Genuine payloads under another content digest

  /** A genuine shard of q in all but the content digest. */
  ghost predicate Relabelled(c: Codec, objectId: string, q: Vector, d: ContentDigest, shard: ErasureShard)
    requires c.Valid()
  {
    0 <= shard.shardIndex < c.TotalShards() && shard == c.ShardOf(objectId, q, shard.shardIndex).(contentDigest := d)
  }

  function Restored(chosen: seq<ErasureShard>, q: Vector): seq<ErasureShard> {
    seq(|chosen|, i requires 0 <= i < |chosen| => chosen[i].(contentDigest := ObjectData(q)))
  }

  lemma RestoredDecodes(c: Codec, objectId: string, q: Vector, d: ContentDigest, chosen: seq<ErasureShard>)
    requires c.Valid() && |chosen| == c.dataShards && objectId != "" && |q| < LENGTH_LIMIT
    requires forall i :: 0 <= i < |chosen| ==> Relabelled(c, objectId, q, d, chosen[i])
    ensures Indexed(c, chosen)
    ensures c.Decode(chosen) ==
            if Invertible(ChosenRows(c.dataShards, c.RowsOf(chosen))) then Ok(q) else Err(SingularMatrix)
  {
    hide Codec.EncodedPayloads, Invertible, GaussJordan, CodecRow, Dot, Unframe;
    var genuine := Restored(chosen, q);
    assert c.AllGenuine(objectId, q, genuine);
    DecodeGenuine(c, objectId, q, genuine);
    assert c.RowsOf(genuine) == c.RowsOf(chosen) && c.PayloadsOf(genuine) == c.PayloadsOf(chosen);
    SameDecoding(c, genuine, chosen);
    hide Codec.Decode;
  }

  lemma SameDecoding(c: Codec, a: seq<ErasureShard>, b: seq<ErasureShard>)
    requires c.Valid() && Indexed(c, a) && Indexed(c, b)
    requires c.RowsOf(a) == c.RowsOf(b) && c.PayloadsOf(a) == c.PayloadsOf(b)
    ensures c.Decode(a) == c.Decode(b)
  {
    hide Codec.RowsOf, Codec.PayloadsOf, GaussJordan, Unframe;
  }

  lemma RelabelledAgree(c: Codec, objectId: string, q: Vector, d: ContentDigest, chosen: seq<ErasureShard>)
    requires c.Valid() && objectId != "" && d != OtherContent("")
    requires forall i :: 0 <= i < |chosen| ==> Relabelled(c, objectId, q, d, chosen[i])
    ensures Concordant(c, chosen)
  {
    hide Codec.EncodedPayloads;
  }

  /** From shards of q under the digest d recovery returns q when that is its digest, and otherwise raises. */
  lemma RelabelledExactly(c: Codec, objectId: string, q: Vector, d: ContentDigest, shards: seq<ErasureShard>)
    requires c.Valid() && objectId != "" && |q| < LENGTH_LIMIT && d != OtherContent("")
    requires |ShardMap(shards)| >= c.dataShards
    requires forall i :: 0 <= i < |shards| ==> Relabelled(c, objectId, q, d, shards[i])
    ensures Indexed(c, c.Selected(shards))
    ensures c.RecoverSpec(shards) ==
            if !Invertible(ChosenRows(c.dataShards, c.RowsOf(c.Selected(shards)))) then Err(SingularMatrix)
            else if d == ObjectData(q) then Ok(q) else Err(DigestMismatch)
  {
    c.SelectedSpec(shards);
    hide Relabelled, Invertible, Codec.Decode, Codec.Selected, Codec.CheckChosen, ShardMap, ErasureShard.Verify;
    var chosen := c.Selected(shards);
    forall i | 0 <= i < |chosen| ensures Relabelled(c, objectId, q, d, chosen[i]) { assert chosen[i] in shards; }
    RelabelledAgree(c, objectId, q, d, chosen);
    AgreePassesChecks(c, chosen);
    RestoredDecodes(c, objectId, q, d, chosen);
    RelabelledDigest(c, objectId, q, d, chosen[0]);
  }

  lemma RelabelledDigest(c: Codec, objectId: string, q: Vector, d: ContentDigest, s: ErasureShard)
    requires c.Valid() && Relabelled(c, objectId, q, d, s)
    ensures s.contentDigest == d
  {
    hide Codec.EncodedPayloads;
  }
}
