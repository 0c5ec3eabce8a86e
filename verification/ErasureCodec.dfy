/**
 The systematic erasure codec and the node-local shard store of mosaic/availability.py.

 Digests are symbolic: a digest is the value it was computed from, or some other text. `EncodeSpec`, `RecoverSpec`
 and `RepairSpec` follow the source branch by branch; the methods run the matrix loops and compute them.
 */
module ErasureCodec {
  import opened Results
  import opened GaloisField
  import opened LinearAlgebra
  import opened Vandermonde

  datatype ContentDigest = ObjectData(payload: Vector) | OtherContent(text: string)
  datatype ShardDigest = ShardData(payload: Vector) | OtherShard(text: string)

  datatype CodecError =
    | InvalidCounts | TooManyShards | EmptyObjectId | PayloadTooLong
    | NotEnoughShards | InvalidShard | IncompatibleShards | SingularMatrix | InconsistentShardSizes
    | DigestMismatch | RepairIndexOutside | ParameterMismatch | ContentMismatch

  datatype ErasureShard = ErasureShard(
    objectId: string,
    contentDigest: ContentDigest,
    shardIndex: int,
    totalShards: int,
    dataShards: int,
    payload: Vector,
    shardDigest: ShardDigest)
  {
    predicate Verify() {
      objectId != "" && contentDigest != OtherContent("") &&
      0 <= shardIndex < totalShards && 0 < dataShards <= totalShards && shardDigest == ShardData(payload)
    }
  }

  // ----- Length frame

  function BigEndian(n: nat, width: nat): (s: Vector)
    ensures |s| == width
  {
    if width == 0 then [] else BigEndian(n / 256, width - 1) + [ByteOf(n % 256)]
  }

  function FromBigEndian(s: Vector): nat {
    if s == [] then 0 else FromBigEndian(s[..|s| - 1]) * 256 + s[|s| - 1] as int
  }

  function Power256(width: nat): nat {
    if width == 0 then 1 else 256 * Power256(width - 1)
  }

  const LENGTH_LIMIT: nat := 0x1_0000_0000_0000_0000

  lemma {:induction false} BigEndianRoundTrip(n: nat, width: nat)
    requires n < Power256(width)
    ensures FromBigEndian(BigEndian(n, width)) == n
  {
    if width > 0 {
      BigEndianRoundTrip(n / 256, width - 1);
      var s := BigEndian(n, width);
      assert s[..width - 1] == BigEndian(n / 256, width - 1);
    }
  }

  function Frame(payload: Vector): Vector { BigEndian(|payload|, 8) + payload }

  function Clamp(n: nat, limit: nat): nat { if n < limit then n else limit }

  /** Reads the length frame and cuts the payload, with the source's clamping slices. */
  function Unframe(framed: Vector): Vector {
    var size := FromBigEndian(framed[..Clamp(8, |framed|)]);
    framed[Clamp(8, |framed|)..Clamp(8 + size, |framed|)]
  }

  lemma UnframeFrame(payload: Vector, padding: Vector)
    requires |payload| < LENGTH_LIMIT
    ensures Unframe(Frame(payload) + padding) == payload
  {
    var framed := Frame(payload) + padding;
    assert Power256(8) == LENGTH_LIMIT;
    BigEndianRoundTrip(|payload|, 8);
    assert framed[..8] == BigEndian(|payload|, 8);
    assert framed[8..8 + |payload|] == payload;
  }

  // ----- Cutting into data shards

  function Chunks(s: Vector, size: nat): seq<Vector>
    requires size > 0
    decreases |s|
  {
    if s == [] then [] else if |s| < size then [s] else [s[..size]] + Chunks(s[size..], size)
  }

  function Join(parts: seq<Vector>): Vector {
    if parts == [] then [] else parts[0] + Join(parts[1..])
  }

  lemma {:induction false} ChunksSpec(s: Vector, size: nat, k: nat)
    requires size > 0 && |s| == k * size
    ensures |Chunks(s, size)| == k && SameWidth(Chunks(s, size), size)
    ensures Join(Chunks(s, size)) == s
    decreases k
  {
    if k > 0 {
      assert |s| == (k - 1) * size + size >= size;
      ChunksSpec(s[size..], size, k - 1);
      var rest := Chunks(s[size..], size);
      assert Chunks(s, size)[1..] == rest;
      assert s == s[..size] + s[size..];
    }
  }

  // ----- The codec

  datatype Codec = Codec(dataShards: nat, parityShards: nat) {
    ghost predicate Valid() {
      dataShards > 0 && parityShards > 0 && dataShards + parityShards <= 255
    }

    function TotalShards(): nat { dataShards + parityShards }

    function Generator(): Matrix
      requires Valid()
    {
      ChosenRows(dataShards, seq(TotalShards(), i requires 0 <= i < TotalShards() => i))
    }

    function ShardSize(payload: Vector): nat
      requires Valid()
    {
      (8 + |payload| + dataShards - 1) / dataShards
    }

    function Padded(payload: Vector): Vector
      requires Valid()
      requires ShardSize(payload) * dataShards >= 8 + |payload|
    {
      Frame(payload) + Zeros(ShardSize(payload) * dataShards - 8 - |payload|)
    }

    lemma SizeFits(payload: Vector)
      requires Valid()
      ensures ShardSize(payload) * dataShards >= 8 + |payload| && ShardSize(payload) > 0
    {
      var q := 8 + |payload| + dataShards - 1;
      assert q == (q / dataShards) * dataShards + q % dataShards;
    }

    function DataShards(payload: Vector): (data: seq<Vector>)
      requires Valid()
      ensures |data| == dataShards && SameWidth(data, ShardSize(payload))
    {
      SizeFits(payload);
      ChunksSpec(Padded(payload), ShardSize(payload), dataShards);
      Chunks(Padded(payload), ShardSize(payload))
    }

    function EncodedPayloads(payload: Vector): (all: seq<Vector>)
      requires Valid()
      ensures |all| == TotalShards()
    {
      ApplyShards(Generator(), DataShards(payload), ShardSize(payload))
    }

    /** The genuine shard i of an object. */
    function ShardOf(objectId: string, payload: Vector, i: nat): ErasureShard
      requires Valid() && i < TotalShards()
    {
      NewShard(objectId, payload, i, EncodedPayloads(payload)[i])
    }

    function NewShard(objectId: string, payload: Vector, i: nat, p: Vector): ErasureShard {
      ErasureShard(objectId, ObjectData(payload), i, TotalShards(), dataShards, p, ShardData(p))
    }

    ghost predicate Genuine(objectId: string, payload: Vector, shard: ErasureShard)
      requires Valid()
    {
      0 <= shard.shardIndex < TotalShards() && shard == ShardOf(objectId, payload, shard.shardIndex)
    }

    ghost predicate AllGenuine(objectId: string, payload: Vector, shards: seq<ErasureShard>)
      requires Valid()
    {
      objectId != "" && |payload| < LENGTH_LIMIT &&
      forall i :: 0 <= i < |shards| ==> Genuine(objectId, payload, shards[i])
    }

    function EncodeSpec(objectId: string, payload: Vector): Result<seq<ErasureShard>, CodecError>
      requires Valid()
    {
      if objectId == "" then Err(EmptyObjectId)
      else if |payload| >= LENGTH_LIMIT then Err(PayloadTooLong)
      else Ok(seq(TotalShards(), i requires 0 <= i < TotalShards() => ShardOf(objectId, payload, i)))
    }

    predicate Compatible(first: ErasureShard, shard: ErasureShard) {
      shard.objectId == first.objectId && shard.contentDigest == first.contentDigest &&
      shard.totalShards == TotalShards() && shard.dataShards == dataShards
    }

    function CheckChosen(chosen: seq<ErasureShard>): (e: Option<CodecError>)
      requires Valid() && |chosen| == dataShards
      ensures e.None? ==> forall i :: 0 <= i < |chosen| ==> 0 <= chosen[i].shardIndex < TotalShards()
    {
      if exists i :: 0 <= i < |chosen| && !chosen[i].Verify() then Some(InvalidShard)
      else if exists i :: 0 <= i < |chosen| && !Compatible(chosen[0], chosen[i]) then Some(IncompatibleShards)
      else None
    }

    /** The k shards with the lowest indices. */
    function Selected(shards: seq<ErasureShard>): (chosen: seq<ErasureShard>)
      requires Valid() && |ShardMap(shards)| >= dataShards
      ensures |chosen| == dataShards
    {
      var m := ShardMap(shards);
      var keys := SortedIndices(m.Keys);
      seq(dataShards, i requires 0 <= i < dataShards => m[keys[i]])
    }

    lemma SelectedSpec(shards: seq<ErasureShard>)
      requires Valid() && |ShardMap(shards)| >= dataShards
      ensures var chosen := Selected(shards);
              (forall i :: 0 <= i < dataShards ==> chosen[i] in shards) &&
              (forall i, j :: 0 <= i < j < dataShards ==> chosen[i].shardIndex < chosen[j].shardIndex)
    {
      hide SortedIndices;
      var m := ShardMap(shards);
      forall i, j | 0 <= i < j < dataShards ensures SortedIndices(m.Keys)[i] < SortedIndices(m.Keys)[j] {
        SortedIncreases(m.Keys, i, j);
      }
    }

    function RowsOf(chosen: seq<ErasureShard>): (rows: seq<nat>)
      requires Valid() && forall i :: 0 <= i < |chosen| ==> 0 <= chosen[i].shardIndex < TotalShards()
      ensures |rows| == |chosen| && forall i :: 0 <= i < |chosen| ==> rows[i] == chosen[i].shardIndex < 255
    {
      assert TotalShards() <= 255;
      seq(|chosen|, i requires 0 <= i < |chosen| => chosen[i].shardIndex)
    }

    function PayloadsOf(chosen: seq<ErasureShard>): seq<Vector> {
      seq(|chosen|, i requires 0 <= i < |chosen| => chosen[i].payload)
    }

    /** Decoding once the chosen shards have passed the checks; the content digest plays no part. */
    function Decode(chosen: seq<ErasureShard>): Result<Vector, CodecError>
      requires Valid() && |chosen| == dataShards
      requires forall i :: 0 <= i < |chosen| ==> 0 <= chosen[i].shardIndex < TotalShards()
    {
      var rows := RowsOf(chosen);
      match GaussJordan(ChosenRows(dataShards, rows))
      case None => Err(SingularMatrix)
      case Some(inverse) =>
        var payloads := PayloadsOf(chosen);
        var width := |payloads[0]|;
        if !SameWidth(payloads, width) then Err(InconsistentShardSizes)
        else Ok(Unframe(Join(ApplyShards(inverse, payloads, width))))
    }

    function RecoverSpec(shards: seq<ErasureShard>): Result<Vector, CodecError>
      requires Valid()
    {
      if |ShardMap(shards)| < dataShards then Err(NotEnoughShards)
      else
        match CheckChosen(Selected(shards))
        case Some(e) => Err(e)
        case None =>
          match Decode(Selected(shards))
          case Err(e) => Err(e)
          case Ok(payload) =>
            if ObjectData(payload) == Selected(shards)[0].contentDigest then Ok(payload) else Err(DigestMismatch)
    }

    function RepairSpec(shards: seq<ErasureShard>, missing: seq<int>): Result<seq<ErasureShard>, CodecError>
      requires Valid()
    {
      match RecoverSpec(shards)
      case Err(e) => Err(e)
      case Ok(payload) =>
        match EncodeSpec(shards[0].objectId, payload)
        case Err(e) => Err(e)
        case Ok(rebuilt) =>
          if !InRange(missing) then Err(RepairIndexOutside)
          else Ok(PickShards(rebuilt, SortedIndices(Indices(missing))))
    }

    predicate InRange(missing: seq<int>) {
      forall j :: 0 <= j < |missing| ==> 0 <= missing[j] < TotalShards()
    }
  }

  function Indices(missing: seq<int>): (s: set<int>)
    ensures forall i :: i in s <==> i in missing
  {
    set i | i in missing
  }

  function PickShards(shards: seq<ErasureShard>, wanted: seq<int>): (picked: seq<ErasureShard>)
    requires forall j :: 0 <= j < |wanted| ==> 0 <= wanted[j] < |shards|
    ensures |picked| == |wanted| && forall j :: 0 <= j < |wanted| ==> picked[j] == shards[wanted[j]]
  {
    seq(|wanted|, j requires 0 <= j < |wanted| => shards[wanted[j]])
  }

  function NewCodec(dataShards: int, parityShards: int): (r: Result<Codec, CodecError>)
    ensures r.Ok? <==> dataShards > 0 && parityShards > 0 && dataShards + parityShards <= 255
    ensures r.Ok? ==> r.value.Valid() && r.value.TotalShards() == dataShards + parityShards
  {
    if dataShards <= 0 || parityShards <= 0 then Err(InvalidCounts)
    else if dataShards + parityShards > 255 then Err(TooManyShards)
    else Ok(Codec(dataShards, parityShards))
  }

  /** Shards by index; a later shard with the same index replaces an earlier one. */
  function ShardMap(shards: seq<ErasureShard>): (m: map<int, ErasureShard>)
    ensures forall i :: i in m ==> m[i].shardIndex == i && m[i] in shards
    ensures forall s :: s in shards ==> s.shardIndex in m
  {
    if shards == [] then map[]
    else
      var last := shards[|shards| - 1];
      assert shards == shards[..|shards| - 1] + [last];
      ShardMap(shards[..|shards| - 1])[last.shardIndex := last]
  }

  // ----- Sorting a set of indices

  lemma {:induction false} FindLeast(s: set<int>) returns (m: int)
    requires s != {}
    ensures m in s && forall x :: x in s ==> m <= x
  {
    var y := Pick(s);
    var rest := s - {y};
    assert forall x :: x in s ==> x == y || x in rest;
    if rest == {} {
      m := y;
    } else {
      var n := FindLeast(rest);
      m := if n < y then n else y;
    }
  }

  function Least(s: set<int>): (m: int)
    requires s != {}
    ensures m in s && forall x :: x in s ==> m <= x
  {
    assert exists m :: m in s && forall x :: x in s ==> m <= x by { var m := FindLeast(s); }
    var m :| m in s && forall x :: x in s ==> m <= x;
    m
  }

  /** The elements of s in increasing order. */
  function SortedIndices(s: set<int>): (r: seq<int>)
    ensures |r| == |s|
    ensures forall i :: 0 <= i < |r| ==> r[i] in s
    decreases |s|
  {
    if s == {} then [] else [Least(s)] + SortedIndices(s - {Least(s)})
  }

  lemma {:induction false} SortedIncreases(s: set<int>, i: nat, j: nat)
    requires i < j < |s|
    ensures SortedIndices(s)[i] < SortedIndices(s)[j]
    decreases |s|
  {
    var least := Least(s);
    var rest := SortedIndices(s - {least});
    if i == 0 {
      assert rest[j - 1] in s - {least};
    } else {
      SortedIncreases(s - {least}, i - 1, j - 1);
    }
  }

  lemma {:induction false} SortedComplete(s: set<int>, x: int)
    requires x in s
    ensures x in SortedIndices(s)
    decreases |s|
  {
    if x != Least(s) { SortedComplete(s - {Least(s)}, x); }
  }

  // ----- Round trip

  /** Genuine shards give back the padded frame once their rows are invertible, whatever the digests say. */
  lemma DecodeGenuine(c: Codec, objectId: string, payload: Vector, chosen: seq<ErasureShard>)
    requires c.Valid() && |chosen| == c.dataShards && c.AllGenuine(objectId, payload, chosen)
    ensures c.Decode(chosen) ==
            if Invertible(ChosenRows(c.dataShards, c.RowsOf(chosen))) then Ok(payload) else Err(SingularMatrix)
  {
    hide Invertible, LeftInverse, Dot, Codec.DataShards, Codec.ShardSize, GaussJordan, Unframe;
    var k, rows, size := c.dataShards, c.RowsOf(chosen), c.ShardSize(payload);
    var m := ChosenRows(k, rows);
    var data := c.DataShards(payload);
    var payloads := c.PayloadsOf(chosen);
    GaussJordanCorrect(m);
    PayloadsAreProduct(c, objectId, payload, chosen);
    assert payloads == ApplyShards(m, data, size);
    if GaussJordan(m).Some? {
      ApplyShardsInverse(GaussJordan(m).value, m, data, size);
      JoinDataShards(c, payload);
    }
  }

  lemma PayloadsAreProduct(c: Codec, objectId: string, payload: Vector, chosen: seq<ErasureShard>)
    requires c.Valid() && |chosen| == c.dataShards && c.AllGenuine(objectId, payload, chosen)
    ensures forall i :: 0 <= i < |chosen| ==> 0 <= chosen[i].shardIndex < c.TotalShards()
    ensures c.PayloadsOf(chosen) ==
            ApplyShards(ChosenRows(c.dataShards, c.RowsOf(chosen)), c.DataShards(payload), c.ShardSize(payload))
    ensures SameWidth(c.PayloadsOf(chosen), c.ShardSize(payload))
  {
    hide Dot, CodecRow, Codec.DataShards, Codec.ShardSize;
  }

  lemma JoinDataShards(c: Codec, payload: Vector)
    requires c.Valid() && |payload| < LENGTH_LIMIT
    ensures Unframe(Join(c.DataShards(payload))) == payload
  {
    c.SizeFits(payload);
    ChunksSpec(c.Padded(payload), c.ShardSize(payload), c.dataShards);
    UnframeFrame(payload, c.Padded(payload)[8 + |payload|..]);
    assert c.Padded(payload) == Frame(payload) + c.Padded(payload)[8 + |payload|..];
  }

  lemma GenuinePassesChecks(c: Codec, objectId: string, payload: Vector, shards: seq<ErasureShard>)
    requires c.Valid() && c.AllGenuine(objectId, payload, shards) && |ShardMap(shards)| >= c.dataShards
    ensures c.AllGenuine(objectId, payload, c.Selected(shards))
    ensures c.CheckChosen(c.Selected(shards)) == None
    ensures c.Selected(shards)[0].contentDigest == ObjectData(payload)
  {
    hide Codec.Selected, Codec.EncodedPayloads, ShardMap;
    c.SelectedSpec(shards);
    var chosen := c.Selected(shards);
    forall i | 0 <= i < |chosen| ensures c.Genuine(objectId, payload, chosen[i]) {
      assert chosen[i] in shards;
    }
  }

  /**
   Recovery from genuine shards: with fewer than k distinct indices it is refused; otherwise it returns exactly the
   payload when the k lowest rows are invertible and reports the singular matrix when they are not.
   */
  lemma RecoverGenuine(c: Codec, objectId: string, payload: Vector, shards: seq<ErasureShard>)
    requires c.Valid() && c.AllGenuine(objectId, payload, shards)
    ensures |ShardMap(shards)| < c.dataShards ==> c.RecoverSpec(shards) == Err(NotEnoughShards)
    ensures |ShardMap(shards)| >= c.dataShards ==>
              var chosen := c.Selected(shards);
              && c.AllGenuine(objectId, payload, chosen)
              && Choice(c.dataShards, c.RowsOf(chosen))
              && c.RecoverSpec(shards) ==
                 if Invertible(ChosenRows(c.dataShards, c.RowsOf(chosen))) then Ok(payload) else Err(SingularMatrix)
  {
    if |ShardMap(shards)| >= c.dataShards {
      GenuinePassesChecks(c, objectId, payload, shards);
      c.SelectedSpec(shards);
      hide Codec.Decode, Invertible, Codec.Selected, Codec.Genuine, ShardMap, ChosenRows, Codec.CheckChosen;
      DecodeGenuine(c, objectId, payload, c.Selected(shards));
    }
  }

  /**
   The erasure guarantee on the shards a node holds: recovery returns the payload when the k lowest indices miss at
   most one data shard, when they are all parity shards, and always when k is at most three.
   */
  lemma ErasureGuarantee(c: Codec, objectId: string, payload: Vector, shards: seq<ErasureShard>)
    requires c.Valid() && c.AllGenuine(objectId, payload, shards) && |ShardMap(shards)| >= c.dataShards
    ensures var chosen := c.Selected(shards);
            (c.dataShards <= 3 || |Lost(c.dataShards, c.RowsOf(chosen))| <= 1 ||
             chosen[0].shardIndex >= c.dataShards) ==> c.RecoverSpec(shards) == Ok(payload)
  {
    RecoverGenuine(c, objectId, payload, shards);
    hide Invertible, Lost, ChosenRows, Codec.Selected, Codec.RecoverSpec, Codec.Genuine, ShardMap;
    var k, rows := c.dataShards, c.RowsOf(c.Selected(shards));
    if k <= 3 {
      SmallCodecInvertible(k, rows);
    } else if |Lost(k, rows)| <= 1 {
      OneLossInvertible(k, rows);
    } else if rows[0] >= k {
      AllParityInvertible(k, rows);
    }
  }

  /** Any selection from what encode returned is genuine, so the guarantees about genuine shards hold of it. */
  lemma EncodedAreGenuine(c: Codec, objectId: string, payload: Vector, kept: seq<nat>)
    requires c.Valid() && c.EncodeSpec(objectId, payload).Ok?
    requires forall i :: 0 <= i < |kept| ==> kept[i] < c.TotalShards()
    ensures |c.EncodeSpec(objectId, payload).value| == c.TotalShards()
    ensures c.AllGenuine(objectId, payload, Kept(c.EncodeSpec(objectId, payload).value, kept))
  {
    hide Codec.EncodedPayloads;
    var all := c.EncodeSpec(objectId, payload).value;
    var shards := Kept(all, kept);
    forall i | 0 <= i < |shards| ensures c.Genuine(objectId, payload, shards[i]) {
      assert shards[i] == c.ShardOf(objectId, payload, kept[i]);
    }
  }

  function Kept(all: seq<ErasureShard>, kept: seq<nat>): seq<ErasureShard>
    requires forall i :: 0 <= i < |kept| ==> kept[i] < |all|
  {
    seq(|kept|, i requires 0 <= i < |kept| => all[kept[i]])
  }

  /** Repair from genuine shards rebuilds, in index order, exactly the shards that were first encoded. */
  lemma RepairGenuine(c: Codec, objectId: string, payload: Vector, shards: seq<ErasureShard>, missing: seq<int>)
    requires c.Valid() && c.AllGenuine(objectId, payload, shards) && c.RecoverSpec(shards) == Ok(payload)
    requires c.InRange(missing)
    ensures var repaired := c.RepairSpec(shards, missing);
            && repaired.Ok? && |repaired.value| == |SortedIndices(Indices(missing))|
            && forall j :: 0 <= j < |repaired.value| ==>
                 repaired.value[j] == c.ShardOf(objectId, payload, SortedIndices(Indices(missing))[j])
  {
    assert shards != [] by {
      if shards == [] { NothingRecovered(c); }
    }
    assert shards[0].objectId == objectId;
    hide Codec.RecoverSpec, Codec.ShardOf, Codec.AllGenuine, Codec.Genuine, SortedIndices;
  }

  /** Which shards repair returns: for each missing index the genuine shard, and nothing else. */
  lemma RepairCovers(c: Codec, objectId: string, payload: Vector, shards: seq<ErasureShard>, missing: seq<int>, i: int)
    requires c.Valid() && c.AllGenuine(objectId, payload, shards) && c.RecoverSpec(shards) == Ok(payload)
    requires c.InRange(missing) && i in missing
    ensures c.RepairSpec(shards, missing).Ok?
    ensures c.ShardOf(objectId, payload, i) in c.RepairSpec(shards, missing).value
  {
    RepairGenuine(c, objectId, payload, shards, missing);
    SortedComplete(Indices(missing), i);
    hide Codec.RecoverSpec, Codec.RepairSpec, Codec.ShardOf, Codec.AllGenuine, SortedIndices;
    var j :| 0 <= j < |SortedIndices(Indices(missing))| && SortedIndices(Indices(missing))[j] == i;
    assert c.RepairSpec(shards, missing).value[j] == c.ShardOf(objectId, payload, i);
  }

  lemma EmptyMap()
    ensures |ShardMap([])| == 0
  {}

  // ----- The source's operations

  method EncodePayloads(c: Codec, payload: Vector) returns (all: seq<Vector>)
    requires c.Valid() && |payload| < LENGTH_LIMIT
    ensures all == c.EncodedPayloads(payload)
  {
    hide Dot, Chunks, CodecRow;
    c.SizeFits(payload);
    var framed := BigEndian(|payload|, 8) + payload;
    var shardSize := (|framed| + c.dataShards - 1) / c.dataShards;
    var padded := framed + Zeros(shardSize * c.dataShards - |framed|);
    var data := Chunks(padded, shardSize);
    assert data == c.DataShards(payload);
    hide Codec.DataShards;
    assert |c.Generator()| > 0 && |c.Generator()[0]| == c.dataShards && |data[0]| == shardSize;
    var product := MatrixVector(c.Generator(), data);
    all := product.value;
  }

  lemma AssembleShards(c: Codec, objectId: string, payload: Vector, all: seq<Vector>)
    requires c.Valid() && objectId != "" && |payload| < LENGTH_LIMIT && all == c.EncodedPayloads(payload)
    ensures Ok(seq(|all|, i requires 0 <= i < |all| => c.NewShard(objectId, payload, i, all[i])))
         == c.EncodeSpec(objectId, payload)
  {
    hide Codec.EncodedPayloads, Codec.NewShard;
    var x := seq(|all|, i requires 0 <= i < |all| => c.NewShard(objectId, payload, i, all[i]));
    var y := c.EncodeSpec(objectId, payload).value;
    assert |x| == |y|;
    forall i | 0 <= i < |x| ensures x[i] == y[i] { }
    assert x == y;
  }

  method Encode(c: Codec, objectId: string, payload: Vector) returns (r: Result<seq<ErasureShard>, CodecError>)
    requires c.Valid()
    ensures r == c.EncodeSpec(objectId, payload)
  {
    if objectId == "" {
      return Err(EmptyObjectId);
    }
    if |payload| >= LENGTH_LIMIT {
      return Err(PayloadTooLong);
    }
    var all := EncodePayloads(c, payload);
    hide Codec.EncodedPayloads, Codec.NewShard;
    AssembleShards(c, objectId, payload, all);
    hide *;
    r := Ok(seq(|all|, i requires 0 <= i < |all| => c.NewShard(objectId, payload, i, all[i])));
  }

  method Recover(c: Codec, shards: seq<ErasureShard>) returns (r: Result<Vector, CodecError>)
    requires c.Valid()
    ensures r == c.RecoverSpec(shards)
  {
    hide Dot, Codec.CheckChosen, Codec.Selected, ShardMap, Unframe, GaussJordan, Invertible, CodecRow;
    var shardMap := ShardMap(shards);
    if |shardMap| < c.dataShards {
      return Err(NotEnoughShards);
    }
    var selected := c.Selected(shards);
    var problem := c.CheckChosen(selected);
    if problem.Some? {
      return Err(problem.value);
    }
    var submatrix := ChosenRows(c.dataShards, c.RowsOf(selected));
    var inverse := MatrixInverse(submatrix);
    if inverse.Err? {
      return Err(SingularMatrix);
    }
    var payloads := c.PayloadsOf(selected);
    var data := MatrixVector(inverse.value, payloads);
    if data.Err? {
      return Err(InconsistentShardSizes);
    }
    var payload := Unframe(Join(data.value));
    r := if ObjectData(payload) == selected[0].contentDigest then Ok(payload) else Err(DigestMismatch);
  }

  method Repair(c: Codec, shards: seq<ErasureShard>, missing: seq<int>)
    returns (r: Result<seq<ErasureShard>, CodecError>)
    requires c.Valid()
    ensures r == c.RepairSpec(shards, missing)
  {
    hide Codec.RecoverSpec, Codec.ShardOf, SortedIndices;
    var payload := Recover(c, shards);
    if payload.Err? {
      return Err(payload.error);
    }
    assert shards != [] by { if shards == [] { EmptyMap(); NothingRecovered(c); } }
    var encoded := Encode(c, shards[0].objectId, payload.value);
    if encoded.Err? {
      return Err(encoded.error);
    }
    if !c.InRange(missing) {
      return Err(RepairIndexOutside);
    }
    r := Ok(PickShards(encoded.value, SortedIndices(Indices(missing))));
  }

  lemma NothingRecovered(c: Codec)
    requires c.Valid()
    ensures c.RecoverSpec([]) == Err(NotEnoughShards)
  {
    EmptyMap();
  }
}
