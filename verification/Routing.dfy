/** The routing table as the program keeps it. */
module Routing {
  import opened XorMetric
  import opened Sorting
  import opened Nodes
  import opened RoutingSpec
  import opened RoutingTheorems

  method RetainOthers(bucket: seq<Node>, id: NodeId) returns (kept: seq<Node>)
    ensures kept == Retain(bucket, id)
  {
    kept := [];
    for k := 0 to |bucket|
      invariant kept == Retain(bucket[..k], id)
    {
      assert bucket[..k + 1][..k] == bucket[..k];
      if bucket[k].id != id {
        kept := kept + [bucket[k]];
      }
    }
    assert bucket[..|bucket|] == bucket;
  }

  class RoutingTable {
    const selfId: NodeId
    const buckets: array<seq<Node>>

    ghost predicate Valid()
      reads this, buckets
    {
      TableInv(selfId, buckets[..])
    }

    constructor (selfId: NodeId)
      ensures Valid() && fresh(buckets) && this.selfId == selfId && buckets[..] == EmptyTable().b
    {
      this.selfId := selfId;
      buckets := new seq<Node>[BUCKETS](_ => []);
      new;
      assert buckets[..] == EmptyTable().b;
    }

    method Upsert(node: Node) returns (r: Upserted)
      requires Valid()
      modifies buckets
      ensures Valid() && (buckets[..], r) == RoutingSpec.Upsert(selfId, old(buckets[..]), node)
    {
      UpsertKeeps(selfId, buckets[..], node);
      ghost var before := buckets[..];
      var i := BucketIndex(selfId, node.id);
      if i.None? {
        return SelfNode;
      }
      var bucket := buckets[i.value];
      var pos := Position(bucket, node.id);
      if pos.Some? {
        var known := bucket[pos.value];
        bucket := Without(bucket, pos.value);
        buckets[i.value] := bucket + [known];
        r := Refreshed;
      } else if |bucket| < K {
        buckets[i.value] := bucket + [node];
        r := Inserted;
      } else {
        r := Full(bucket[0]);
      }
      assert buckets[..] == RoutingSpec.Upsert(selfId, before, node).0;
    }

    method Refresh(id: NodeId)
      requires Valid()
      modifies buckets
      ensures Valid() && buckets[..] == RoutingSpec.Refresh(selfId, old(buckets[..]), id)
    {
      RefreshKeeps(selfId, buckets[..], id);
      ghost var before := buckets[..];
      var i := BucketIndex(selfId, id);
      if i.None? {
        return;
      }
      var bucket := buckets[i.value];
      var pos := Position(bucket, id);
      if pos.Some? {
        var known := bucket[pos.value];
        bucket := Without(bucket, pos.value);
        buckets[i.value] := bucket + [known];
      }
      assert buckets[..] == RoutingSpec.Refresh(selfId, before, id);
    }

    // In order afterwards exactly if the new node belongs where the old one was.
    method Replace(oldId: NodeId, node: Node)
      requires Valid()
      modifies buckets
      ensures buckets[..] == RoutingSpec.Replace(selfId, old(buckets[..]), oldId, node)
      ensures Valid() <==> old(Holds(selfId, buckets[..], oldId) ==> Fits(selfId, buckets[..], oldId, node.id))
    {
      ReplaceKeepsIff(selfId, buckets[..], oldId, node);
      ghost var before := buckets[..];
      var i := BucketIndex(selfId, oldId);
      if i.None? {
        return;
      }
      var bucket := buckets[i.value];
      var pos := Position(bucket, oldId);
      if pos.Some? {
        bucket := Without(bucket, pos.value);
        if |bucket| < K {
          bucket := bucket + [node];
        }
        buckets[i.value] := bucket;
      }
      assert buckets[..] == RoutingSpec.Replace(selfId, before, oldId, node);
    }

    method Evict(id: NodeId)
      requires Valid()
      modifies buckets
      ensures Valid() && buckets[..] == RoutingSpec.Evict(selfId, old(buckets[..]), id)
    {
      EvictKeeps(selfId, buckets[..], id);
      ghost var before := buckets[..];
      var i := BucketIndex(selfId, id);
      if i.None? {
        return;
      }
      var kept := RetainOthers(buckets[i.value], id);
      buckets[i.value] := kept;
      assert buckets[..] == RoutingSpec.Evict(selfId, before, id);
    }

    method Closest(target: NodeId, count: nat) returns (r: seq<Node>)
      requires Valid()
      ensures r == RoutingSpec.Closest(buckets[..], target, count)
      ensures Nearest(buckets[..], target, count, r)
    {
      var all := [];
      for i := 0 to buckets.Length
        invariant all == Flatten(buckets[..i])
      {
        assert buckets[..i + 1][..i] == buckets[..i];
        all := all + buckets[i];
      }
      assert buckets[..buckets.Length] == buckets[..];
      r := Take(SortByKey(Rank(target), all), count);
      ClosestIsNearest(selfId, buckets[..], target, count);
    }

    method Len() returns (n: nat)
      ensures n == Size(buckets[..])
    {
      n := 0;
      for i := 0 to buckets.Length
        invariant n == Size(buckets[..i])
      {
        assert buckets[..i + 1][..i] == buckets[..i];
        n := n + |buckets[i]|;
      }
      assert buckets[..buckets.Length] == buckets[..];
    }
  }
}
