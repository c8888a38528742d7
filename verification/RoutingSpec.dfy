/** The routing table: 160 buckets of at most eight nodes, by distance from our
    own id; within a bucket, the node heard from longest ago comes first. */
module RoutingSpec {
  import opened Wrappers
  import opened XorMetric
  import opened Sorting
  import opened Nodes

  const K: nat := 8
  const BUCKETS: nat := 160

  type Buckets = seq<seq<Node>>

  datatype Upserted = Inserted | Refreshed | SelfNode | Full(oldest: Node)

  function Position(bucket: seq<Node>, id: NodeId): (r: Option<nat>)
    ensures r.Some? ==> r.value < |bucket| && bucket[r.value].id == id
    ensures r.None? ==> forall n :: n in bucket ==> n.id != id
  {
    if bucket == [] then None
    else if bucket[0].id == id then Some(0)
    else
      var rest := Position(bucket[1..], id);
      if rest.None? then None else Some(rest.value + 1)
  }

  function Without(bucket: seq<Node>, pos: nat): seq<Node>
    requires pos < |bucket|
  {
    bucket[..pos] + bucket[pos + 1..]
  }

  function Retain(bucket: seq<Node>, id: NodeId): seq<Node> {
    if bucket == [] then []
    else
      var rest := Retain(bucket[..|bucket| - 1], id);
      if bucket[|bucket| - 1].id == id then rest else rest + [bucket[|bucket| - 1]]
  }

  // A node that is known keeps the address it is known by.
  function Upsert(self: NodeId, b: Buckets, node: Node): (Buckets, Upserted)
    requires |b| == BUCKETS
  {
    var i := BucketIndex(self, node.id);
    if i.None? then (b, SelfNode)
    else
      var bucket := b[i.value];
      var pos := Position(bucket, node.id);
      if pos.Some? then (b[i.value := Without(bucket, pos.value) + [bucket[pos.value]]], Refreshed)
      else if |bucket| < K then (b[i.value := bucket + [node]], Inserted)
      else (b, Full(bucket[0]))
  }

  function Refresh(self: NodeId, b: Buckets, id: NodeId): Buckets
    requires |b| == BUCKETS
  {
    var i := BucketIndex(self, id);
    if i.None? then b
    else
      var bucket := b[i.value];
      var pos := Position(bucket, id);
      if pos.None? then b else b[i.value := Without(bucket, pos.value) + [bucket[pos.value]]]
  }

  function Replace(self: NodeId, b: Buckets, oldId: NodeId, node: Node): Buckets
    requires |b| == BUCKETS
  {
    var i := BucketIndex(self, oldId);
    if i.None? then b
    else
      var bucket := b[i.value];
      var pos := Position(bucket, oldId);
      if pos.None? then b
      else
        var rest := Without(bucket, pos.value);
        b[i.value := if |rest| < K then rest + [node] else rest]
  }

  function Evict(self: NodeId, b: Buckets, id: NodeId): Buckets
    requires |b| == BUCKETS
  {
    var i := BucketIndex(self, id);
    if i.None? then b else b[i.value := Retain(b[i.value], id)]
  }

  function Flatten(b: Buckets): seq<Node> {
    if b == [] then [] else Flatten(b[..|b| - 1]) + b[|b| - 1]
  }

  function Closest(b: Buckets, target: NodeId, count: nat): seq<Node> {
    Take(SortByKey(Rank(target), Flatten(b)), count)
  }

  // ---------- The invariant ----------

  ghost predicate DistinctIds(bucket: seq<Node>) {
    forall i, j :: 0 <= i < j < |bucket| ==> bucket[i].id != bucket[j].id
  }

  ghost predicate BucketInv(self: NodeId, i: nat, bucket: seq<Node>) {
    && |bucket| <= K
    && DistinctIds(bucket)
    && forall n :: n in bucket ==> BucketIndex(self, n.id) == Some(i)
  }

  ghost predicate TableInv(self: NodeId, b: Buckets) {
    |b| == BUCKETS && forall i: nat :: i < BUCKETS ==> BucketInv(self, i, b[i])
  }

  ghost predicate Member(b: Buckets, n: Node) {
    exists i :: 0 <= i < |b| && n in b[i]
  }
}

/** What the routing table guarantees. */
module RoutingTheorems {
  import opened Wrappers
  import opened Binary
  import opened XorMetric
  import opened Sorting
  import opened Nodes
  import opened RoutingSpec

  // ---------- Every table ----------

  // Bucket i holds ids at a distance from 2^i up to 2^(i+1) only; no id is
  // there twice, and ours is not there.
  lemma TableIsDyadic(self: NodeId, b: Buckets, i: nat, k: nat)
    requires TableInv(self, b) && i < BUCKETS && k < |b[i]|
    ensures Pow2(i) <= Gap(self, b[i][k].id) < Pow2(i + 1) && b[i][k].id != self
    ensures forall j, l :: 0 <= j < BUCKETS && 0 <= l < |b[j]| && b[j][l].id == b[i][k].id ==> j == i && l == k
  {
    assert BucketInv(self, i, b[i]) && b[i][k] in b[i];
    BucketIsDyadic(self, b[i][k].id, i);
    forall j, l | 0 <= j < BUCKETS && 0 <= l < |b[j]| && b[j][l].id == b[i][k].id ensures j == i && l == k {
      assert BucketInv(self, j, b[j]) && b[j][l] in b[j];
    }
  }

  lemma WithoutKeeps(self: NodeId, i: nat, bucket: seq<Node>, pos: nat)
    requires BucketInv(self, i, bucket) && pos < |bucket|
    ensures BucketInv(self, i, Without(bucket, pos))
    ensures forall n :: n in Without(bucket, pos) <==> n in bucket && n.id != bucket[pos].id
  {
  }

  lemma AppendKeeps(self: NodeId, i: nat, bucket: seq<Node>, n: Node)
    requires BucketInv(self, i, bucket) && |bucket| < K
    ensures BucketInv(self, i, bucket + [n]) <==>
            BucketIndex(self, n.id) == Some(i) && forall m :: m in bucket ==> m.id != n.id
  {
    var more := bucket + [n];
    assert n in more && more[|bucket|] == n;
    if BucketInv(self, i, more) {
      forall m | m in bucket ensures m.id != n.id {
        var j :| 0 <= j < |bucket| && bucket[j] == m;
        assert more[j].id != more[|bucket|].id;
      }
    }
  }

  lemma BucketKeeps(self: NodeId, b: Buckets, i: nat, bucket: seq<Node>)
    requires TableInv(self, b) && i < BUCKETS
    ensures TableInv(self, b[i := bucket]) <==> BucketInv(self, i, bucket)
  {
    if TableInv(self, b[i := bucket]) {
      assert BucketInv(self, i, b[i := bucket][i]);
    }
  }

  lemma TouchKeeps(self: NodeId, b: Buckets, i: nat, pos: nat)
    requires TableInv(self, b) && i < BUCKETS && pos < |b[i]|
    ensures BucketInv(self, i, Without(b[i], pos)) && |Without(b[i], pos)| < K
    ensures TableInv(self, b[i := Without(b[i], pos) + [b[i][pos]]])
  {
  }

  lemma UpsertKeeps(self: NodeId, b: Buckets, node: Node)
    requires TableInv(self, b)
    ensures TableInv(self, Upsert(self, b, node).0)
  {
  }

  lemma RefreshKeeps(self: NodeId, b: Buckets, id: NodeId)
    requires TableInv(self, b)
    ensures TableInv(self, Refresh(self, b, id))
  {
  }

  lemma {:induction false} RetainMembers(bucket: seq<Node>, id: NodeId)
    ensures forall n :: n in Retain(bucket, id) <==> n in bucket && n.id != id
    ensures |Retain(bucket, id)| <= |bucket|
  {
    if bucket != [] {
      RetainMembers(bucket[..|bucket| - 1], id);
      assert bucket == bucket[..|bucket| - 1] + [bucket[|bucket| - 1]];
    }
  }

  lemma {:induction false} RetainWorks(self: NodeId, i: nat, bucket: seq<Node>, id: NodeId)
    requires BucketInv(self, i, bucket)
    ensures BucketInv(self, i, Retain(bucket, id))
    decreases |bucket|
  {
    if bucket != [] {
      var front, n := bucket[..|bucket| - 1], bucket[|bucket| - 1];
      assert bucket == front + [n];
      assert BucketInv(self, i, front);
      RetainWorks(self, i, front, id);
      RetainMembers(front, id);
      AppendKeeps(self, i, front, n);
      AppendKeeps(self, i, Retain(front, id), n);
    }
  }

  lemma EvictKeeps(self: NodeId, b: Buckets, id: NodeId)
    requires TableInv(self, b)
    ensures TableInv(self, Evict(self, b, id))
    ensures forall n :: Member(Evict(self, b, id), n) <==> Member(b, n) && n.id != id
  {
    var i := BucketIndex(self, id);
    BucketIsDyadic(self, id, 0);
    var after := Evict(self, b, id);
    if i.Some? {
      assert BucketInv(self, i.value, b[i.value]);
      RetainWorks(self, i.value, b[i.value], id);
      RetainMembers(b[i.value], id);
      BucketKeeps(self, b, i.value, Retain(b[i.value], id));
    }
    forall n ensures Member(after, n) <==> Member(b, n) && n.id != id {
      if Member(after, n) {
        var j :| 0 <= j < |after| && n in after[j];
        assert BucketInv(self, j, after[j]);
        assert n in b[j];
      }
      if Member(b, n) && n.id != id {
        var j :| 0 <= j < |b| && n in b[j];
        assert n in after[j];
      }
    }
  }

  predicate Holds(self: NodeId, b: Buckets, id: NodeId)
    requires |b| == BUCKETS
  {
    var i := BucketIndex(self, id);
    i.Some? && Position(b[i.value], id).Some?
  }

  // The id belongs into the bucket of oldId, and is not there under another node.
  predicate Fits(self: NodeId, b: Buckets, oldId: NodeId, id: NodeId)
    requires |b| == BUCKETS
  {
    BucketIndex(self, id) == BucketIndex(self, oldId) && (id == oldId || !Holds(self, b, id))
  }

  // Replacing does not check where the new node belongs. A node that is there
  // may be replaced by exactly the nodes of its bucket that are not there.
  lemma ReplaceKeepsIff(self: NodeId, b: Buckets, oldId: NodeId, node: Node)
    requires TableInv(self, b)
    ensures TableInv(self, Replace(self, b, oldId, node)) <==> Holds(self, b, oldId) ==> Fits(self, b, oldId, node.id)
  {
    var i := BucketIndex(self, oldId);
    if i.Some? {
      var bucket := b[i.value];
      var pos := Position(bucket, oldId);
      if pos.Some? {
        assert BucketInv(self, i.value, bucket);
        var rest := Without(bucket, pos.value);
        WithoutKeeps(self, i.value, bucket, pos.value);
        AppendKeeps(self, i.value, rest, node);
        BucketKeeps(self, b, i.value, rest + [node]);
        PositionFinds(bucket, node.id);
      }
    }
  }

  // So nothing stops a caller from replacing a node by ourselves.
  lemma ReplaceBySelfBreaks(self: NodeId, b: Buckets, oldId: NodeId, addr: Addr)
    requires TableInv(self, b) && Holds(self, b, oldId)
    ensures !TableInv(self, Replace(self, b, oldId, Node(self, addr)))
  {
    ReplaceKeepsIff(self, b, oldId, Node(self, addr));
    BucketIsDyadic(self, self, 0);
  }

  lemma PositionFinds(bucket: seq<Node>, id: NodeId)
    ensures Position(bucket, id).Some? <==> exists n :: n in bucket && n.id == id
  {
  }

  // ---------- Every run ----------

  datatype Op =
    | DoUpsert(node: Node)
    | DoRefresh(id: NodeId)
    | DoReplace(oldId: NodeId, node: Node)
    | DoEvict(id: NodeId)

  /** A table, with the time of each node's last contact. */
  datatype Tracked = Tracked(b: Buckets, seen: map<NodeId, nat>, now: nat)

  function EmptyTable(): Tracked {
    Tracked(seq(BUCKETS, _ => []), map[], 0)
  }

  function Apply(self: NodeId, b: Buckets, op: Op): Buckets
    requires |b| == BUCKETS
  {
    match op
    case DoUpsert(node) => Upsert(self, b, node).0
    case DoRefresh(id) => Refresh(self, b, id)
    case DoReplace(oldId, node) => Replace(self, b, oldId, node)
    case DoEvict(id) => Evict(self, b, id)
  }

  // The id an operation has heard from, if any.
  function Contacted(self: NodeId, b: Buckets, op: Op): Option<NodeId>
    requires |b| == BUCKETS
  {
    match op
    case DoUpsert(node) => Some(node.id)
    case DoRefresh(id) => Some(id)
    case DoReplace(oldId, node) => if Holds(self, b, oldId) then Some(node.id) else None
    case DoEvict(_) => None
  }

  function Note(seen: map<NodeId, nat>, heard: Option<NodeId>, now: nat): map<NodeId, nat> {
    if heard.Some? then seen[heard.value := now] else seen
  }

  function Step(self: NodeId, t: Tracked, op: Op): Tracked
    requires |t.b| == BUCKETS
  {
    Tracked(Apply(self, t.b, op), Note(t.seen, Contacted(self, t.b, op), t.now), t.now + 1)
  }

  // What the caller of `replace` owes.
  ghost predicate Legal(self: NodeId, b: Buckets, op: Op)
    requires |b| == BUCKETS
  {
    op.DoReplace? && Holds(self, b, op.oldId) ==> Fits(self, b, op.oldId, op.node.id)
  }

  // The nodes of a bucket stand in the order in which they were last heard from.
  ghost predicate InOrder(bucket: seq<Node>, seen: map<NodeId, nat>) {
    && (forall n :: n in bucket ==> n.id in seen)
    && (forall k, l :: 0 <= k < l < |bucket| ==> seen[bucket[k].id] < seen[bucket[l].id])
  }

  ghost predicate AllInOrder(b: Buckets, seen: map<NodeId, nat>) {
    forall i :: 0 <= i < |b| ==> InOrder(b[i], seen)
  }

  ghost predicate RunInv(self: NodeId, t: Tracked) {
    && TableInv(self, t.b)
    && AllInOrder(t.b, t.seen)
    && (forall id :: id in t.seen ==> t.seen[id] < t.now)
  }

  lemma OrderWithout(bucket: seq<Node>, seen: map<NodeId, nat>, pos: nat)
    requires InOrder(bucket, seen) && pos < |bucket|
    ensures InOrder(Without(bucket, pos), seen)
  {
  }

  lemma {:induction false} OrderRetain(bucket: seq<Node>, seen: map<NodeId, nat>, id: NodeId)
    requires InOrder(bucket, seen)
    ensures InOrder(Retain(bucket, id), seen)
    ensures forall n :: n in Retain(bucket, id) ==> n in bucket
    decreases |bucket|
  {
    if bucket != [] {
      var last := |bucket| - 1;
      var rest := Retain(bucket[..last], id);
      assert bucket == bucket[..last] + [bucket[last]];
      OrderRetain(bucket[..last], seen, id);
      forall n | n in rest ensures seen[n.id] < seen[bucket[last].id] {
        var j :| 0 <= j < last && bucket[j] == n;
      }
      assert forall j :: 0 <= j < |rest| ==> rest[j] in rest;
    }
  }

  // The bucket an operation changes, after it.
  lemma AppendInOrder(self: NodeId, t: Tracked, i: nat, rest: seq<Node>, n: Node)
    requires RunInv(self, t) && i < BUCKETS && InOrder(rest, t.seen) && BucketIndex(self, n.id) == Some(i)
    requires forall m :: m in rest ==> m.id != n.id
    ensures AllInOrder(t.b[i := rest + [n]], t.seen[n.id := t.now])
  {
  }

  lemma UnheldInOrder(self: NodeId, t: Tracked, id: NodeId)
    requires RunInv(self, t) && !Holds(self, t.b, id)
    ensures AllInOrder(t.b, t.seen[id := t.now])
  {
  }

  lemma TouchInOrder(self: NodeId, t: Tracked, id: NodeId, heard: Node)
    requires RunInv(self, t) && Holds(self, t.b, id)
    requires Fits(self, t.b, id, heard.id)
    ensures var i := BucketIndex(self, id).value;
            var after := t.b[i := Without(t.b[i], Position(t.b[i], id).value) + [heard]];
            AllInOrder(after, t.seen[heard.id := t.now])
  {
    var i := BucketIndex(self, id).value;
    var pos := Position(t.b[i], id).value;
    assert BucketInv(self, i, t.b[i]);
    WithoutKeeps(self, i, t.b[i], pos);
    OrderWithout(t.b[i], t.seen, pos);
    AppendInOrder(self, t, i, Without(t.b[i], pos), heard);
  }

  lemma UpsertInOrder(self: NodeId, t: Tracked, node: Node)
    requires RunInv(self, t)
    ensures AllInOrder(Upsert(self, t.b, node).0, t.seen[node.id := t.now])
  {
    if Holds(self, t.b, node.id) {
      var bucket := t.b[BucketIndex(self, node.id).value];
      TouchInOrder(self, t, node.id, bucket[Position(bucket, node.id).value]);
    } else {
      UnheldInOrder(self, t, node.id);
      var i := BucketIndex(self, node.id);
      if i.Some? && |t.b[i.value]| < K {
        AppendInOrder(self, t, i.value, t.b[i.value], node);
      }
    }
  }

  lemma RefreshInOrder(self: NodeId, t: Tracked, id: NodeId)
    requires RunInv(self, t)
    ensures AllInOrder(Refresh(self, t.b, id), t.seen[id := t.now])
  {
    if Holds(self, t.b, id) {
      var bucket := t.b[BucketIndex(self, id).value];
      TouchInOrder(self, t, id, bucket[Position(bucket, id).value]);
    } else {
      UnheldInOrder(self, t, id);
    }
  }

  lemma ReplaceInOrder(self: NodeId, t: Tracked, oldId: NodeId, node: Node)
    requires RunInv(self, t) && Holds(self, t.b, oldId) && Fits(self, t.b, oldId, node.id)
    ensures AllInOrder(Replace(self, t.b, oldId, node), t.seen[node.id := t.now])
  {
    var i := BucketIndex(self, oldId).value;
    TouchKeeps(self, t.b, i, Position(t.b[i], oldId).value);
    TouchInOrder(self, t, oldId, node);
  }

  lemma StepKeeps(self: NodeId, t: Tracked, op: Op)
    requires RunInv(self, t) && Legal(self, t.b, op)
    ensures RunInv(self, Step(self, t, op))
  {
    match op {
      case DoUpsert(node) =>
        UpsertKeeps(self, t.b, node);
        UpsertInOrder(self, t, node);
      case DoRefresh(id) =>
        RefreshKeeps(self, t.b, id);
        RefreshInOrder(self, t, id);
      case DoReplace(oldId, node) =>
        ReplaceKeepsIff(self, t.b, oldId, node);
        if Holds(self, t.b, oldId) {
          ReplaceInOrder(self, t, oldId, node);
        }
      case DoEvict(id) =>
        EvictKeeps(self, t.b, id);
        if BucketIndex(self, id).Some? {
          OrderRetain(t.b[BucketIndex(self, id).value], t.seen, id);
        }
    }
  }

  ghost predicate LegalRun(self: NodeId, t: Tracked, ops: seq<Op>)
    requires |t.b| == BUCKETS
    decreases |ops|
  {
    ops != [] ==>
      && Legal(self, t.b, ops[0])
      && |Step(self, t, ops[0]).b| == BUCKETS
      && LegalRun(self, Step(self, t, ops[0]), ops[1..])
  }

  ghost function Ran(self: NodeId, t: Tracked, ops: seq<Op>): Tracked
    requires |t.b| == BUCKETS && LegalRun(self, t, ops)
    decreases |ops|
  {
    if ops == [] then t else Ran(self, Step(self, t, ops[0]), ops[1..])
  }

  // Any sequence of operations from the empty table keeps every bucket within
  // its size and range, and in the order of last contact.
  lemma RunKeeps(self: NodeId, ops: seq<Op>)
    requires LegalRun(self, EmptyTable(), ops)
    ensures RunInv(self, Ran(self, EmptyTable(), ops))
  {
    RunKeepsFrom(self, EmptyTable(), ops);
  }

  lemma {:induction false} RunKeepsFrom(self: NodeId, t: Tracked, ops: seq<Op>)
    requires RunInv(self, t) && LegalRun(self, t, ops)
    ensures RunInv(self, Ran(self, t, ops))
    decreases |ops|
  {
    if ops != [] {
      StepKeeps(self, t, ops[0]);
      RunKeepsFrom(self, Step(self, t, ops[0]), ops[1..]);
    }
  }

  // The table is full for a node exactly if its bucket has eight others, and
  // then the node reported is the one heard from longest ago.
  lemma FullReportsOldest(self: NodeId, t: Tracked, node: Node)
    requires RunInv(self, t)
    ensures var i := BucketIndex(self, node.id);
            var (after, r) := Upsert(self, t.b, node);
            && (r.Full? <==> i.Some? && |t.b[i.value]| == K && !Holds(self, t.b, node.id))
            && (r.Full? ==> && after == t.b && r.oldest in t.b[i.value]
                            && forall n :: n in t.b[i.value] && n != r.oldest ==>
                                 n.id in t.seen && r.oldest.id in t.seen && t.seen[r.oldest.id] < t.seen[n.id])
  {
  }

  // ---------- Addresses ----------

  lemma MemberOfBucket(self: NodeId, b: Buckets, n: Node)
    requires TableInv(self, b)
    ensures var i := BucketIndex(self, n.id);
            Member(b, n) <==> i.Some? && n in b[i.value]
  {
    if Member(b, n) {
      var j :| 0 <= j < |b| && n in b[j];
      assert BucketInv(self, j, b[j]);
    }
  }

  // After a node was heard from, the table has what it had, and the node at its
  // address if and only if its id belongs to a bucket that has room and does not
  // know it.
  lemma UpsertStores(self: NodeId, b: Buckets, node: Node, m: Node)
    requires TableInv(self, b)
    ensures var (after, r) := Upsert(self, b, node);
            var i := BucketIndex(self, node.id);
            Member(after, m) <==>
              Member(b, m) || (m == node && i.Some? && |b[i.value]| < K && !Holds(self, b, node.id))
  {
    var after := Upsert(self, b, node).0;
    UpsertKeeps(self, b, node);
    MemberOfBucket(self, b, m);
    MemberOfBucket(self, after, m);
  }

  // A node that moved to another address is not found at the new one.
  lemma OldAddressStays(self: NodeId, b: Buckets, known: Node, node: Node)
    requires TableInv(self, b) && Member(b, known) && known.id == node.id && known.addr != node.addr
    ensures var (after, r) := Upsert(self, b, node);
            r == Refreshed && Member(after, known) && !Member(after, node)
  {
    MemberOfBucket(self, b, known);
    MemberOfBucket(self, b, node);
    UpsertStores(self, b, node, known);
    UpsertStores(self, b, node, node);
  }

  // ---------- The nearest nodes ----------

  lemma {:induction false} FlattenWorks(self: NodeId, b: Buckets, i: nat)
    requires TableInv(self, b) && i <= BUCKETS
    ensures DistinctIds(Flatten(b[..i]))
    ensures forall n :: n in Flatten(b[..i]) <==> exists j :: 0 <= j < i && n in b[j]
    decreases i
  {
    if i > 0 {
      FlattenWorks(self, b, i - 1);
      var front, bucket := Flatten(b[..i - 1]), b[i - 1];
      assert b[..i][..i - 1] == b[..i - 1];
      assert BucketInv(self, i - 1, bucket);
      forall m, n | m in front && n in bucket ensures m.id != n.id {
        var j :| 0 <= j < i - 1 && m in b[j];
        assert BucketInv(self, j, b[j]);
      }
      AppendDistinct(front, bucket);
    }
  }

  lemma AppendDistinct(a: seq<Node>, b: seq<Node>)
    requires DistinctIds(a) && DistinctIds(b) && forall m, n :: m in a && n in b ==> m.id != n.id
    ensures DistinctIds(a + b)
  {
  }

  function Size(b: Buckets): nat {
    |Flatten(b)|
  }

  ghost predicate Increasing(target: NodeId, r: seq<Node>) {
    forall i, j :: 0 <= i < j < |r| ==> Rank(target)(r[i]) < Rank(target)(r[j])
  }

  // A list of `count` members, or all of them, nearest first, none farther
  // than a member that is not listed.
  ghost predicate Nearest(b: Buckets, target: NodeId, count: nat, r: seq<Node>) {
    && |r| == (if count < Size(b) then count else Size(b))
    && (forall n :: n in r ==> Member(b, n))
    && Increasing(target, r)
    && (forall m, n :: m in r && Member(b, n) && n !in r ==> Rank(target)(m) < Rank(target)(n))
  }

  lemma MembersOf(self: NodeId, b: Buckets)
    requires TableInv(self, b)
    ensures DistinctIds(Flatten(b)) && forall n :: n in Flatten(b) <==> Member(b, n)
  {
    FlattenWorks(self, b, BUCKETS);
    assert b[..BUCKETS] == b;
  }

  lemma StrictlySorted(target: NodeId, s: seq<Node>, r: seq<Node>)
    requires DistinctIds(s) && Sorted(Rank(target), r) && multiset(r) <= multiset(s)
    ensures Increasing(target, r)
  {
    var f := (n: Node) => n.id;
    assert DistinctBy(f, s);
    DistinctInside(f, s, r);
    forall i, j | 0 <= i < j < |r| ensures Rank(target)(r[i]) < Rank(target)(r[j]) {
      assert f(r[i]) != f(r[j]);
      RankIsInjective(target, r[i], r[j]);
    }
  }

  lemma ClosestIsNearest(self: NodeId, b: Buckets, target: NodeId, count: nat)
    requires TableInv(self, b)
    ensures Nearest(b, target, count, Closest(b, target, count))
  {
    var all, r := Flatten(b), Closest(b, target, count);
    MembersOf(self, b);
    TakeIsLeast(Rank(target), all, count);
    StrictlySorted(target, all, r);
    assert forall n :: n in r ==> n in multiset(r) && n in multiset(all);
    forall m, n | m in r && Member(b, n) && n !in r ensures Rank(target)(m) < Rank(target)(n) {
      RankIsInjective(target, m, n);
      if m.id == n.id {
        SameNode(all, m, n);
      }
    }
  }

  lemma SameNode(s: seq<Node>, m: Node, n: Node)
    requires DistinctIds(s) && m in s && n in s && m.id == n.id
    ensures m == n
  {
  }

  // No other list answers the question.
  lemma {:induction false} NearestIsUnique(self: NodeId, b: Buckets, target: NodeId, count: nat, r: seq<Node>, q: seq<Node>, i: nat)
    requires TableInv(self, b) && Nearest(b, target, count, r) && Nearest(b, target, count, q) && i <= |r|
    ensures |r| == |q| && r[..i] == q[..i]
  {
    if i > 0 {
      NearestIsUnique(self, b, target, count, r, q, i - 1);
      NotBefore(self, b, target, count, r, q, i - 1);
      NotBefore(self, b, target, count, q, r, i - 1);
      MembersOf(self, b);
      assert r[i - 1] in r && q[i - 1] in q;
      RankIsInjective(target, r[i - 1], q[i - 1]);
      SameNode(Flatten(b), r[i - 1], q[i - 1]);
      assert r[..i] == r[..i - 1] + [r[i - 1]] && q[..i] == q[..i - 1] + [q[i - 1]];
    }
  }

  lemma NotBefore(self: NodeId, b: Buckets, target: NodeId, count: nat, r: seq<Node>, q: seq<Node>, i: nat)
    requires TableInv(self, b) && Nearest(b, target, count, r) && Nearest(b, target, count, q)
    requires i < |r| && r[..i] == q[..i]
    ensures Rank(target)(q[i]) <= Rank(target)(r[i])
  {
  }

  lemma ClosestIsTheNearest(self: NodeId, b: Buckets, target: NodeId, count: nat, q: seq<Node>)
    requires TableInv(self, b)
    ensures Nearest(b, target, count, q) <==> q == Closest(b, target, count)
  {
    ClosestIsNearest(self, b, target, count);
    var r := Closest(b, target, count);
    if Nearest(b, target, count, q) {
      NearestIsUnique(self, b, target, count, r, q, |r|);
      assert r[..|r|] == r && q[..|q|] == q;
    }
  }
}
