/**
 When any k shards suffice: exactly when every square minor of the parity block is invertible.
 */
module AnyK {
  import opened GaloisField
  import opened LinearAlgebra
  import opened Results
  import opened Vandermonde
  import opened ErasureCodec

  /** The parity rows restricted to some data columns. */
  function ParityMinor(parity: seq<nat>, columns: seq<nat>): Matrix
    requires forall i :: 0 <= i < |parity| ==> parity[i] < 255
  {
    seq(|parity|, i requires 0 <= i < |parity| =>
      seq(|columns|, b requires 0 <= b < |columns| => Pow(Point(parity[i]), columns[b])))
  }

  /** As many parity shards as data columns, of a codec with k data and m parity shards. */
  ghost predicate SquarePick(k: nat, m: nat, parity: seq<nat>, columns: seq<nat>) {
    && |parity| == |columns| > 0 && Increasing(parity) && Increasing(columns)
    && (forall i :: 0 <= i < |parity| ==> k <= parity[i] < k + m)
    && forall b :: 0 <= b < |columns| ==> columns[b] < k
  }

  ghost predicate MinorsInvertible(k: nat, m: nat)
    requires k + m <= 255
  {
    forall parity, columns :: SquarePick(k, m, parity, columns) ==> Invertible(ParityMinor(parity, columns))
  }

  ghost predicate AnyKSuffice(k: nat, m: nat)
    requires 0 < k && k + m <= 255
  {
    forall rows :: Choice(k, rows) && rows[k - 1] < k + m ==> Invertible(ChosenRows(k, rows))
  }

  lemma MinorIsParityMinor(k: nat, rows: seq<nat>, lost: seq<nat>)
    requires Choice(k, rows) && LosesExactly(k, rows, lost)
    ensures Minor(k, rows, lost) == ParityMinor(rows[k - |lost|..], lost)
  {
    hide Pow, Point;
    var a, b := Minor(k, rows, lost), ParityMinor(rows[k - |lost|..], lost);
    forall i | 0 <= i < |lost| ensures a[i] == b[i] {
      assert rows[k - |lost|..][i] == rows[k - |lost| + i];
    }
  }

  lemma ChoiceByMinor(k: nat, rows: seq<nat>, lost: seq<nat>)
    requires Choice(k, rows) && LosesExactly(k, rows, lost) && lost != []
    ensures Invertible(ChosenRows(k, rows)) <==> Invertible(ParityMinor(rows[k - |lost|..], lost))
  {
    MinorDecides(k, rows, lost);
    MinorIsParityMinor(k, rows, lost);
    InvertibleIffNoKernel(ParityMinor(rows[k - |lost|..], lost));
    hide Invertible, KernelVector, ChosenRows, Minor, ParityMinor;
  }

  lemma PickOfChoice(k: nat, m: nat, rows: seq<nat>, lost: seq<nat>)
    requires Choice(k, rows) && LosesExactly(k, rows, lost) && rows[k - 1] < k + m && lost != []
    ensures SquarePick(k, m, rows[k - |lost|..], lost)
  {
    var parity := rows[k - |lost|..];
    forall i | 0 <= i < |parity| ensures k <= parity[i] < k + m {
      assert parity[i] == rows[k - |lost| + i];
      if k - |lost| + i < k - 1 { assert rows[k - |lost| + i] < rows[k - 1]; }
    }
  }

  /** The data columns from j on that are kept, and their number. */
  lemma {:induction false} KeptCount(k: nat, columns: seq<nat>, j: nat)
    requires Increasing(columns) && (columns != [] ==> j <= columns[0]) && j <= k
    requires forall b :: 0 <= b < |columns| ==> columns[b] < k
    ensures |LostFrom(k, columns, j)| + |columns| == k - j
    decreases k - j
  {
    if j < k {
      if columns != [] && columns[0] == j {
        var tail := columns[1..];
        assert columns == [j] + tail;
        KeptCount(k, tail, j + 1);
      } else {
        KeptCount(k, columns, j + 1);
      }
    }
  }

  /** The choice of shards that loses exactly these columns and uses exactly these parity shards. */
  lemma ChoiceOfPick(k: nat, m: nat, parity: seq<nat>, columns: seq<nat>) returns (rows: seq<nat>)
    requires k + m <= 255 && SquarePick(k, m, parity, columns)
    ensures Choice(k, rows) && rows[k - 1] < k + m && LosesExactly(k, rows, columns)
    ensures rows[k - |columns|..] == parity
  {
    var kept := LostFrom(k, columns, 0);
    KeptCount(k, columns, 0);
    LostOnly(k, columns, 0);
    rows := kept + parity;
    forall c | 0 <= c < k && c !in rows ensures c in columns {
      if c !in columns { LostAll(k, columns, 0, c); }
    }
    hide LostFrom;
    forall b | 0 <= b < |columns| ensures columns[b] !in rows {
      assert columns[b] in columns && columns[b] !in kept && columns[b] !in parity;
    }
  }

  /** The codec recovers from every k of its k + m shards exactly when no square minor of its parity block is singular. */
  lemma AnyKExactly(k: nat, m: nat)
    requires 0 < k && k + m <= 255
    ensures AnyKSuffice(k, m) <==> MinorsInvertible(k, m)
  {
    hide Invertible, ChosenRows, ParityMinor;
    if MinorsInvertible(k, m) {
      forall rows | Choice(k, rows) && rows[k - 1] < k + m ensures Invertible(ChosenRows(k, rows)) {
        ChoiceRecovers(k, m, rows);
      }
    }
    if AnyKSuffice(k, m) {
      forall parity, columns | SquarePick(k, m, parity, columns) ensures Invertible(ParityMinor(parity, columns)) {
        PickInvertible(k, m, parity, columns);
      }
    }
  }

  lemma ChoiceRecovers(k: nat, m: nat, rows: seq<nat>)
    requires k + m <= 255 && MinorsInvertible(k, m) && Choice(k, rows) && rows[k - 1] < k + m
    ensures Invertible(ChosenRows(k, rows))
  {
    hide Invertible, ChosenRows, ParityMinor, LosesExactly, SquarePick, LostFrom;
    var lost := Lost(k, rows);
    LostSpec(k, rows);
    if lost == [] {
      OneLossInvertible(k, rows);
    } else {
      ChoiceByMinor(k, rows, lost);
      PickOfChoice(k, m, rows, lost);
    }
  }

  lemma PickInvertible(k: nat, m: nat, parity: seq<nat>, columns: seq<nat>)
    requires 0 < k && k + m <= 255 && AnyKSuffice(k, m) && SquarePick(k, m, parity, columns)
    ensures Invertible(ParityMinor(parity, columns))
  {
    hide Invertible, ChosenRows, ParityMinor, LosesExactly;
    var rows := ChoiceOfPick(k, m, parity, columns);
    ChoiceByMinor(k, rows, columns);
  }

  // ----- The codec's promise

  /** The shards with these numbers. */
  function ShardsAt(c: Codec, objectId: string, payload: Vector, rows: seq<nat>): seq<ErasureShard>
    requires c.Valid() && forall i :: 0 <= i < |rows| ==> rows[i] < c.TotalShards()
  {
    seq(|rows|, i requires 0 <= i < |rows| => c.ShardOf(objectId, payload, rows[i]))
  }

  lemma {:induction false} MapOfShards(c: Codec, objectId: string, payload: Vector, rows: seq<nat>)
    requires c.Valid() && forall i :: 0 <= i < |rows| ==> rows[i] < c.TotalShards()
    ensures ShardMap(ShardsAt(c, objectId, payload, rows)).Keys == set i | 0 <= i < |rows| :: rows[i]
  {
    hide ShardMap, Codec.ShardOf;
    var shards := ShardsAt(c, objectId, payload, rows);
    var m := ShardMap(shards);
    forall x | x in m ensures exists i :: 0 <= i < |rows| && rows[i] == x {
      var i :| 0 <= i < |shards| && shards[i] == m[x];
      assert ShardsIndex(c, objectId, payload, rows[i]) == x;
    }
    forall i | 0 <= i < |rows| ensures rows[i] in m {
      assert shards[i] in shards;
      assert ShardsIndex(c, objectId, payload, rows[i]) == rows[i];
    }
  }

  function ShardsIndex(c: Codec, objectId: string, payload: Vector, i: nat): (index: int)
    requires c.Valid() && i < c.TotalShards()
    ensures index == i == c.ShardOf(objectId, payload, i).shardIndex
  {
    c.ShardOf(objectId, payload, i).shardIndex
  }

  /** An increasing list is the sorted list of its elements. */
  lemma {:induction false} SortedOfIncreasing(rows: seq<nat>, s: set<int>)
    requires Increasing(rows) && forall x :: x in s <==> x in rows
    ensures SortedIndices(s) == rows
    decreases |rows|
  {
    if rows == [] {
      assert s == {};
    } else {
      var x, rest := rows[0], rows[1..];
      assert x in rows;
      assert rows == [x] + rest;
      forall y | y in s ensures x <= y {
        var i :| 0 <= i < |rows| && rows[i] == y;
        if i > 0 { assert rows[0] < rows[i]; }
      }
      assert Least(s) == x;
      assert x !in rest;
      SortedOfIncreasing(rest, s - {x});
    }
  }

  lemma ChoiceWithin(c: Codec, rows: seq<nat>)
    requires c.Valid() && Choice(c.dataShards, rows) && rows[c.dataShards - 1] < c.TotalShards()
    ensures forall i :: 0 <= i < |rows| ==> rows[i] < c.TotalShards()
  {
    var k := c.dataShards;
    forall i | 0 <= i < |rows| ensures rows[i] < c.TotalShards() {
      if i < k - 1 { assert rows[i] < rows[k - 1]; }
    }
  }

  lemma ChoiceIsGenuine(c: Codec, objectId: string, payload: Vector, rows: seq<nat>)
    requires c.Valid() && objectId != "" && |payload| < LENGTH_LIMIT
    requires forall i :: 0 <= i < |rows| ==> rows[i] < c.TotalShards()
    ensures c.AllGenuine(objectId, payload, ShardsAt(c, objectId, payload, rows))
  {
    hide Codec.EncodedPayloads;
  }

  lemma ChoiceKeys(c: Codec, objectId: string, payload: Vector, rows: seq<nat>)
    requires c.Valid() && Increasing(rows) && forall i :: 0 <= i < |rows| ==> rows[i] < c.TotalShards()
    ensures var m := ShardMap(ShardsAt(c, objectId, payload, rows)); SortedIndices(m.Keys) == rows && |m| == |rows|
  {
    MapOfShards(c, objectId, payload, rows);
    var m := ShardMap(ShardsAt(c, objectId, payload, rows));
    hide Codec.ShardOf, ShardsAt, SortedIndices, ShardMap;
    assert forall x :: x in m.Keys <==> x in rows;
    SortedOfIncreasing(rows, m.Keys);
    assert |m| == |m.Keys| == |SortedIndices(m.Keys)|;
  }

  /** From the shards of a choice, recovery selects exactly that choice. */
  lemma SelectsChoice(c: Codec, objectId: string, payload: Vector, rows: seq<nat>)
    requires c.Valid() && objectId != "" && |payload| < LENGTH_LIMIT
    requires Choice(c.dataShards, rows) && rows[c.dataShards - 1] < c.TotalShards()
    ensures forall i :: 0 <= i < |rows| ==> rows[i] < c.TotalShards()
    ensures var shards := ShardsAt(c, objectId, payload, rows);
            && c.AllGenuine(objectId, payload, shards) && |ShardMap(shards)| == c.dataShards
            && (forall i :: 0 <= i < c.dataShards ==> c.Selected(shards)[i].shardIndex == rows[i])
  {
    ChoiceWithin(c, rows);
    ChoiceKeys(c, objectId, payload, rows);
    ChoiceIsGenuine(c, objectId, payload, rows);
    hide Codec.AllGenuine, SortedIndices, ShardMap, ShardsAt;
  }

  /** Every set of genuine shards with k indices gives the payload back. */
  ghost predicate RecoversFromAnyK(c: Codec, objectId: string, payload: Vector)
    requires c.Valid()
  {
    forall shards :: c.AllGenuine(objectId, payload, shards) && |ShardMap(shards)| >= c.dataShards ==>
                       c.RecoverSpec(shards) == Ok(payload)
  }

  /**
   A codec the constructor accepts keeps the promise of its documentation, recovery from any k of n shards, exactly
   when no square minor of its parity block is singular, whatever the object.
   */
  lemma PromiseKeptExactly(dataShards: int, parityShards: int, objectId: string, payload: Vector)
    requires NewCodec(dataShards, parityShards).Ok? && objectId != "" && |payload| < LENGTH_LIMIT
    ensures RecoversFromAnyK(NewCodec(dataShards, parityShards).value, objectId, payload)
       <==> MinorsInvertible(dataShards, parityShards)
  {
    var c := NewCodec(dataShards, parityShards).value;
    AnyKExactly(c.dataShards, c.parityShards);
    hide Codec.AllGenuine, Codec.RecoverSpec, ShardMap, MinorsInvertible, Choice;
    if AnyKSuffice(c.dataShards, c.parityShards) {
      forall shards | c.AllGenuine(objectId, payload, shards) && |ShardMap(shards)| >= c.dataShards
        ensures c.RecoverSpec(shards) == Ok(payload)
      {
        SufficientRecovers(c, objectId, payload, shards);
      }
    }
    if RecoversFromAnyK(c, objectId, payload) { PromiseSuffices(c, objectId, payload); }
  }

  lemma SufficientRecovers(c: Codec, objectId: string, payload: Vector, shards: seq<ErasureShard>)
    requires c.Valid() && AnyKSuffice(c.dataShards, c.parityShards)
    requires c.AllGenuine(objectId, payload, shards) && |ShardMap(shards)| >= c.dataShards
    ensures c.RecoverSpec(shards) == Ok(payload)
  {
    RecoverGenuine(c, objectId, payload, shards);
    hide Codec.Selected, Codec.RecoverSpec, ShardMap, Invertible, ChosenRows, Codec.ShardOf;
    var chosen := c.Selected(shards);
    assert c.Genuine(objectId, payload, chosen[c.dataShards - 1]);
    assert c.RowsOf(chosen)[c.dataShards - 1] < c.dataShards + c.parityShards;
  }

  lemma PromiseSuffices(c: Codec, objectId: string, payload: Vector)
    requires c.Valid() && objectId != "" && |payload| < LENGTH_LIMIT && RecoversFromAnyK(c, objectId, payload)
    ensures AnyKSuffice(c.dataShards, c.parityShards)
  {
    var k, m := c.dataShards, c.parityShards;
    hide RecoversFromAnyK;
    forall rows: seq<nat> | Choice(k, rows) && rows[k - 1] < k + m ensures Invertible(ChosenRows(k, rows)) {
      ChoiceRecovered(c, objectId, payload, rows);
    }
  }

  lemma ChoiceRecovered(c: Codec, objectId: string, payload: Vector, rows: seq<nat>)
    requires c.Valid() && objectId != "" && |payload| < LENGTH_LIMIT && RecoversFromAnyK(c, objectId, payload)
    requires Choice(c.dataShards, rows) && rows[c.dataShards - 1] < c.TotalShards()
    ensures Invertible(ChosenRows(c.dataShards, rows))
  {
    SelectsChoice(c, objectId, payload, rows);
    var shards := ShardsAt(c, objectId, payload, rows);
    RecoverGenuine(c, objectId, payload, shards);
    assert c.RecoverSpec(shards) == Ok(payload);
    hide RecoversFromAnyK, Codec.AllGenuine, Codec.RecoverSpec, ShardMap, Invertible, ChosenRows, Codec.Selected, ShardsAt;
    SameRows(c, c.Selected(shards), rows);
  }

  lemma SameRows(c: Codec, chosen: seq<ErasureShard>, rows: seq<nat>)
    requires c.Valid() && |chosen| == |rows|
    requires forall i :: 0 <= i < |rows| ==> chosen[i].shardIndex == rows[i] < c.TotalShards()
    ensures c.RowsOf(chosen) == rows
  {}
}
