/** The node-local shard store: shards filed by object and index, with repair of what is missing. */
module AvailabilityStores {
  import opened Results
  import opened LinearAlgebra
  import opened ErasureCodec

  type Shelf = map<int, ErasureShard>

  /** The shards of a shelf, in index order. */
  function ShardsOn(shelf: Shelf): (shards: seq<ErasureShard>)
    ensures |shards| == |shelf.Keys|
  {
    var keys := SortedIndices(shelf.Keys);
    seq(|keys|, j requires 0 <= j < |keys| => shelf[keys[j]])
  }

  function MissingFrom(shelf: Shelf, total: nat): seq<int> {
    if total == 0 then []
    else MissingFrom(shelf, total - 1) + if total - 1 in shelf then [] else [total - 1]
  }

  lemma {:induction false} MissingSpec(shelf: Shelf, total: nat)
    ensures forall i :: i in MissingFrom(shelf, total) <==> 0 <= i < total && i !in shelf
    ensures (forall i :: 0 <= i < total ==> i in shelf) ==> MissingFrom(shelf, total) == []
  {
    if total > 0 { MissingSpec(shelf, total - 1); }
  }

  ghost predicate GenuineShelf(c: Codec, objectId: string, payload: Vector, shelf: Shelf)
    requires c.Valid()
  {
    objectId != "" && |payload| < LENGTH_LIMIT &&
    forall i :: i in shelf ==> shelf[i].shardIndex == i && c.Genuine(objectId, payload, shelf[i])
  }

  lemma GenuineShelfShards(c: Codec, objectId: string, payload: Vector, shelf: Shelf)
    requires c.Valid() && GenuineShelf(c, objectId, payload, shelf)
    ensures c.AllGenuine(objectId, payload, ShardsOn(shelf))
  {
    hide Codec.Genuine, SortedIndices;
    var keys := SortedIndices(shelf.Keys);
    forall j | 0 <= j < |keys| ensures c.Genuine(objectId, payload, ShardsOn(shelf)[j]) {
      var i := keys[j];
      assert i in shelf && c.Genuine(objectId, payload, shelf[i]);
      assert ShardsOn(shelf)[j] == shelf[i];
    }
  }

  class AvailabilityStore {
    const codec: Codec
    var objects: map<string, Shelf>

    constructor (codec: Codec)
      ensures this.codec == codec && objects == map[]
    {
      this.codec := codec;
      objects := map[];
    }

    /** A filed shard verifies, sits under its own object and index, and agrees with its neighbours on the content. */
    ghost predicate Sound(objectId: string, shelf: Shelf) {
      (forall i :: i in shelf ==>
         && shelf[i].shardIndex == i && shelf[i].objectId == objectId && shelf[i].Verify()
         && shelf[i].totalShards == codec.TotalShards() && shelf[i].dataShards == codec.dataShards)
      && forall i, j :: i in shelf && j in shelf ==> shelf[i].contentDigest == shelf[j].contentDigest
    }

    ghost predicate Valid()
      reads this
    {
      codec.Valid() && forall o :: o in objects ==> Sound(o, objects[o])
    }

    function ShelfOf(objectId: string): Shelf
      reads this
    {
      if objectId in objects then objects[objectId] else map[]
    }

    method Put(shard: ErasureShard) returns (error: Option<CodecError>)
      requires Valid()
      modifies this
      ensures Valid()
      ensures error == Some(ParameterMismatch) <==>
                shard.totalShards != codec.TotalShards() || shard.dataShards != codec.dataShards
      ensures error == Some(InvalidShard) ==> !shard.Verify()
      ensures error.None? <==>
                && shard.totalShards == codec.TotalShards() && shard.dataShards == codec.dataShards && shard.Verify()
                && forall i :: i in old(ShelfOf(shard.objectId)) ==>
                     old(ShelfOf(shard.objectId))[i].contentDigest == shard.contentDigest
      ensures objects == if error.Some? then old(objects)
                         else old(objects)[shard.objectId := old(ShelfOf(shard.objectId))[shard.shardIndex := shard]]
    {
      if shard.totalShards != codec.TotalShards() || shard.dataShards != codec.dataShards {
        return Some(ParameterMismatch);
      }
      if !shard.Verify() {
        return Some(InvalidShard);
      }
      var existing := ShelfOf(shard.objectId);
      if existing != map[] {
        assert existing.Keys != {};
        ghost var some := Pick(existing.Keys);
        var first :| first in existing;
        if existing[first].contentDigest != shard.contentDigest {
          return Some(ContentMismatch);
        }
      }
      objects := objects[shard.objectId := existing[shard.shardIndex := shard]];
      error := None;
    }

    /**
     Repair from the shards given, or else from the node's own. When they are genuine and recovery succeeds, the shelf
     ends up holding the genuine shard of every index, and no other object is touched.
     */
    method Repair(objectId: string, given: Option<seq<ErasureShard>>, ghost payload: Vector)
      returns (r: Result<seq<ErasureShard>, CodecError>)
      requires Valid() && GenuineShelf(codec, objectId, payload, ShelfOf(objectId))
      requires given.Some? ==> codec.AllGenuine(objectId, payload, given.value)
      modifies this
      ensures Valid()
      ensures var before := old(ShelfOf(objectId));
              var recovered := codec.RecoverSpec(if given.Some? then given.value else ShardsOn(before));
              var complete := MissingFrom(before, codec.TotalShards()) == [];
              if complete then r == Ok([]) && objects == old(objects)
              else if recovered.Err? then r == Err(recovered.error) && objects == old(objects)
              else
                && r.Ok? && GenuineShelf(codec, objectId, payload, ShelfOf(objectId))
                && MissingFrom(ShelfOf(objectId), codec.TotalShards()) == []
                && (forall i :: i in before ==> i in ShelfOf(objectId))
                && (forall o :: o in old(objects) && o != objectId ==> o in objects && objects[o] == old(objects)[o])
    {
      hide Codec.RecoverSpec, Codec.ShardOf, Codec.Genuine, SortedIndices;
      var shelf := ShelfOf(objectId);
      var source := if given.Some? then given.value else ShardsOn(shelf);
      var missing := MissingFrom(shelf, codec.TotalShards());
      MissingSpec(shelf, codec.TotalShards());
      if missing == [] {
        return Ok([]);
      }
      assert codec.InRange(missing) by {
        forall j | 0 <= j < |missing| ensures 0 <= missing[j] < codec.TotalShards() { assert missing[j] in missing; }
      }
      r := ErasureCodec.Repair(codec, source, missing);
      GenuineShelfShards(codec, objectId, payload, shelf);
      RepairOutcome(codec, objectId, payload, source, missing);
      if r.Err? {
        return;
      }
      PutAll(objectId, payload, r.value);
      ghost var wanted := SortedIndices(Indices(missing));
      forall i | 0 <= i < codec.TotalShards() ensures i in ShelfOf(objectId) {
        if i !in shelf {
          SortedComplete(Indices(missing), i);
          var j :| 0 <= j < |wanted| && wanted[j] == i;
          assert r.value[j].shardIndex == i;
        }
      }
      MissingSpec(ShelfOf(objectId), codec.TotalShards());
    }

    /** Files genuine shards of one object, one after the other. */
    method PutAll(objectId: string, ghost payload: Vector, shards: seq<ErasureShard>)
      requires Valid() && GenuineShelf(codec, objectId, payload, ShelfOf(objectId))
      requires forall j :: 0 <= j < |shards| ==> codec.Genuine(objectId, payload, shards[j])
      modifies this
      ensures Valid() && GenuineShelf(codec, objectId, payload, ShelfOf(objectId))
      ensures forall i :: i in old(ShelfOf(objectId)) ==> i in ShelfOf(objectId)
      ensures forall j :: 0 <= j < |shards| ==> shards[j].shardIndex in ShelfOf(objectId)
      ensures forall o :: o in old(objects) && o != objectId ==> o in objects && objects[o] == old(objects)[o]
    {
      hide Codec.ShardOf, ErasureShard.Verify;
      for j := 0 to |shards|
        invariant Valid() && GenuineShelf(codec, objectId, payload, ShelfOf(objectId))
        invariant forall i :: i in old(ShelfOf(objectId)) ==> i in ShelfOf(objectId)
        invariant forall i :: 0 <= i < j ==> shards[i].shardIndex in ShelfOf(objectId)
        invariant forall o :: o in old(objects) && o != objectId ==> o in objects && objects[o] == old(objects)[o]
      {
        GenuineVerifies(codec, objectId, payload, shards[j]);
        forall i | i in ShelfOf(objectId) ensures ShelfOf(objectId)[i].contentDigest == ObjectData(payload) {
          GenuineVerifies(codec, objectId, payload, ShelfOf(objectId)[i]);
        }
        var error := Put(shards[j]);
      }
    }
  }

  lemma GenuineVerifies(c: Codec, objectId: string, payload: Vector, shard: ErasureShard)
    requires c.Valid() && objectId != "" && c.Genuine(objectId, payload, shard)
    ensures shard.Verify() && shard.objectId == objectId && shard.contentDigest == ObjectData(payload)
    ensures shard.totalShards == c.TotalShards() && shard.dataShards == c.dataShards
  {
    var i := shard.shardIndex;
    assert shard == c.NewShard(objectId, payload, i, c.EncodedPayloads(payload)[i]);
    assert 0 < shard.dataShards <= shard.totalShards;
  }

  lemma RepairOutcome(c: Codec, objectId: string, payload: Vector, shards: seq<ErasureShard>, missing: seq<int>)
    requires c.Valid() && c.AllGenuine(objectId, payload, shards) && c.InRange(missing)
    ensures var recovered := c.RecoverSpec(shards); var repaired := c.RepairSpec(shards, missing);
            if recovered.Err? then repaired == Err(recovered.error)
            else repaired.Ok? && |repaired.value| == |SortedIndices(Indices(missing))| &&
                 forall j :: 0 <= j < |repaired.value| ==>
                   c.Genuine(objectId, payload, repaired.value[j]) &&
                   repaired.value[j].shardIndex == SortedIndices(Indices(missing))[j]
  {
    if c.RecoverSpec(shards).Ok? {
      hide Codec.RecoverSpec, Codec.RepairSpec, Codec.EncodedPayloads, Codec.AllGenuine, Codec.Selected, SortedIndices;
      RecoverGenuine(c, objectId, payload, shards);
      EnoughShards(c, shards);
      RepairGenuine(c, objectId, payload, shards, missing);
    } else {
      hide Codec.RecoverSpec, Codec.AllGenuine;
    }
  }

  lemma EnoughShards(c: Codec, shards: seq<ErasureShard>)
    requires c.Valid() && c.RecoverSpec(shards).Ok?
    ensures |ShardMap(shards)| >= c.dataShards
  {
    hide Codec.Selected, Codec.CheckChosen, Codec.Decode, ShardMap;
  }
}
