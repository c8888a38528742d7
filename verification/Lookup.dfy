/** The search as the program runs it. */
module DhtLookup {
  import opened Wrappers
  import opened Bytes
  import opened XorMetric
  import opened Sorting
  import opened Nodes
  import opened LookupSpec
  import opened LookupTheorems

  method MergeCandidates(candidates: seq<Node>, nodes: seq<Node>, queried: set<Addr>, target: NodeId)
    returns (merged: seq<Node>)
    ensures merged == LookupSpec.MergeCandidates(candidates, nodes, queried, target)
  {
    merged := candidates;
    for i := 0 to |nodes|
      invariant merged == Fresh(candidates, nodes[..i], queried)
    {
      assert nodes[..i + 1][..i] == nodes[..i];
      var known := exists c :: c in merged && c.addr == nodes[i].addr;
      if nodes[i].addr !in queried && !known {
        merged := merged + [nodes[i]];
      }
    }
    assert nodes[..|nodes|] == nodes;
    merged := SortByKey(Rank(target), merged);
    merged := Take(merged, MAX_CANDIDATES);
  }

  // Whether or not a candidate is picked, the rest follows behind it.
  lemma PickNext(round: seq<Node>, candidates: seq<Node>, k: nat, queried: set<Addr>, room: nat)
    requires k < |candidates| && 0 < room
    ensures round + Pick(candidates[k..], queried, room)
         == if candidates[k].addr in queried then round + Pick(candidates[k + 1..], queried, room)
            else round + [candidates[k]] + Pick(candidates[k + 1..], queried, room - 1)
  {
    assert candidates[k..][0] == candidates[k] && candidates[k..][1..] == candidates[k + 1..];
    Assoc(round, [candidates[k]], Pick(candidates[k + 1..], queried, room - 1));
  }

  lemma PickNoMore(round: seq<Node>, candidates: seq<Node>, k: nat, queried: set<Addr>, room: nat)
    requires k <= |candidates| && (k == |candidates| || room == 0)
    ensures round + Pick(candidates[k..], queried, room) == round
  {
    assert Pick(candidates[k..], queried, room) == [];
  }

  // The nearest candidates not asked yet; each takes one from the budget.
  method PickRound(candidates: seq<Node>, queried: set<Addr>, budget: nat) returns (round: seq<Node>, left: nat)
    ensures round == Pick(candidates, queried, Room(budget)) && left == budget - |round|
  {
    round, left := [], budget;
    var k := 0;
    ghost var room := Room(budget);
    assert candidates[0..] == candidates && [] + Pick(candidates, queried, room) == Pick(candidates, queried, room);
    while k < |candidates| && |round| < ALPHA && left != 0
      invariant k <= |candidates| && |round| + room == Room(budget) && left + |round| == budget
      invariant Pick(candidates, queried, Room(budget)) == round + Pick(candidates[k..], queried, room)
    {
      PickNext(round, candidates, k, queried, room);
      if candidates[k].addr !in queried {
        round := round + [candidates[k]];
        left := left - 1;
        room := room - 1;
      }
      k := k + 1;
    }
    PickNoMore(round, candidates, k, queried, room);
  }

  method SendRound(s: Search, round: seq<Node>, failed: set<nat>) returns (r: Search)
    ensures r == Send(s, round, failed)
  {
    r := s;
    for i := 0 to |round|
      invariant r == Send(s, round[..i], failed)
    {
      assert round[..i + 1][..i] == round[..i];
      r := r.(queried := r.queried + {round[i].addr});
      var tx := r.nextTx;
      r := r.(nextTx := NextTx(tx));
      if i !in failed {
        r := r.(pending := r.pending[tx := round[i].addr]);
      }
    }
    assert round[..|round|] == round;
  }

  method ReportPeers(s: Search, values: seq<Addr>) returns (r: Search)
    ensures r == Report(s, values)
  {
    r := s;
    for i := 0 to |values|
      invariant r == Report(s, values[..i])
    {
      assert values[..i + 1][..i] == values[..i];
      if values[i] !in r.reported {
        r := r.(reported := r.reported + {values[i]}, sent := r.sent + [values[i]]);
      }
    }
    assert values[..|values|] == values;
  }

  // The sender is alive; its token is kept; the nodes it names go into the table
  // and among the candidates.
  method NoteAnswer(s: Search, target: NodeId, d: Datagram) returns (r: Search)
    requires d.Response?
    ensures r == Noted(s, target, d)
  {
    r := s.(table := Learn(s.self, s.table, Node(d.id, d.from)));
    if d.token.Some? {
      r := r.(tokens := r.tokens[d.from := d.token.value]);
    }
    var table := r.table;
    for i := 0 to |d.nodes|
      invariant table == LearnAll(s.self, r.table, d.nodes[..i])
    {
      assert d.nodes[..i + 1][..i] == d.nodes[..i];
      table := Learn(s.self, table, d.nodes[i]);
    }
    assert d.nodes[..|d.nodes|] == d.nodes;
    var candidates := MergeCandidates(s.candidates, d.nodes, s.queried, target);
    r := r.(table := table, candidates := candidates);
  }

  // Waits for the answers of the round, or its deadline.
  method ReceiveRound(s: Search, target: NodeId, datagrams: seq<Datagram>) returns (r: Search, gone: bool)
    ensures (r, gone) == ReceiveAll(s, target, datagrams)
  {
    r, gone := s, false;
    var k := 0;
    while r.pending != map[] && k < |datagrams|
      invariant k <= |datagrams|
      invariant ReceiveAll(s, target, datagrams) == ReceiveAll(r, target, datagrams[k..])
      decreases |datagrams| - k
    {
      assert datagrams[k..][1..] == datagrams[k + 1..];
      match datagrams[k] {
        case Closed => return r, true;
        case Other =>
        case Query(sender) => r := r.(table := Learn(r.self, r.table, sender));
        case Response(tx, from, id, token, nodes, values) =>
          var origin := Origin(r, tx);
          r := Forget(r, tx);
          if origin == Some(from) {
            r := NoteAnswer(r, target, datagrams[k]);
            r := ReportPeers(r, values);
          }
      }
      k := k + 1;
    }
  }

  method RetainUnasked(candidates: seq<Node>, queried: set<Addr>) returns (r: seq<Node>)
    ensures r == Unasked(candidates, queried)
  {
    r := [];
    for i := 0 to |candidates|
      invariant r == Unasked(candidates[..i], queried)
    {
      assert candidates[..i + 1][..i] == candidates[..i];
      if candidates[i].addr !in queried {
        r := r + [candidates[i]];
      }
    }
    assert candidates[..|candidates|] == candidates;
  }

  // Asks the nearest candidates and waits for their answers.
  method RunRound(s: Search, target: NodeId, reply: Reply) returns (round: seq<Node>, heard: Search, gone: bool)
    ensures round == Picked(s)
    ensures if round == [] then heard == s && !gone else (heard, gone) == Heard(s, target, reply)
  {
    var left;
    round, left := PickRound(s.candidates, s.queried, s.budget);
    if round == [] {
      return round, s, false;
    }
    heard := SendRound(s, round, reply.failed);
    heard := heard.(budget := left);
    heard, gone := ReceiveRound(heard, target, reply.datagrams);
  }

  // What is still awaited may come later; the candidates left are those not
  // asked yet, the nearest sixteen.
  method FinishRound(s: Search, target: NodeId) returns (r: Search)
    ensures r == EndRound(s, target)
  {
    var unasked := RetainUnasked(s.candidates, s.queried);
    r := s.(late := s.late + s.pending,
            pending := map[],
            candidates := Take(SortByKey(Rank(target), unasked), MAX_CANDIDATES));
  }

  // The search from the nodes of the routing table nearest to the target: its
  // rounds of queries, and the state it ends in, with the peers found.
  method Lookup(o: Origins, target: NodeId, net: Network, budget: nat) returns (r: Result<(), DhtError>, outcome: Outcome)
    ensures var start := SearchOf(o, target, budget);
            if start.candidates == [] then r == Err(NoNodes) && outcome == Outcome(false, [], start)
            else outcome == Rounds(start, target, net, 0) && r == if outcome.gone then Err(ClientGone) else Ok(())
  {
    var s := SearchOf(o, target, budget);
    if s.candidates == [] {
      return Err(NoNodes), Outcome(false, [], s);
    }
    var n: nat, done: seq<Round> := 0, [];
    ghost var start := s;
    while true
      invariant Rounds(start, target, net, 0) == Before(done, Rounds(s, target, net, n))
      decreases s.budget
    {
      OneRound(s, target, net, n);
      HeardKeepsBudget(s, target, net(n));
      var round, heard, gone := RunRound(s, target, net(n));
      if round == [] {
        return Ok(()), Outcome(false, done, s);
      }
      ghost var before := done;
      done := done + [Round(s, round)];
      if gone {
        return Err(ClientGone), Outcome(true, done, heard);
      }
      ghost var latest := Round(s, round);
      s := FinishRound(heard, target);
      n := n + 1;
      BeforeBefore(before, latest, Rounds(s, target, net, n));
    }
  }

  ghost function Before(done: seq<Round>, rest: Outcome): Outcome {
    rest.(rounds := done + rest.rounds)
  }

  lemma BeforeBefore(done: seq<Round>, r: Round, rest: Outcome)
    ensures Before(done + [r], rest) == Before(done, rest.(rounds := [r] + rest.rounds))
  {
  }
}

/** The search together with the table it starts from. */
module SearchTheorems {
  import opened FiniteSets
  import opened XorMetric
  import opened Nodes
  import opened LookupSpec
  import opened LookupTheorems
  import opened RoutingSpec
  import opened RoutingTheorems

  lemma SearchOfIsAtRest(o: Origins, target: NodeId, budget: nat)
    requires TableInv(o.self, o.table)
    ensures AtRest(SearchOf(o, target, budget), target) && SentOnce(SearchOf(o, target, budget), o.reported)
    ensures Tidy(SearchOf(o, target, budget), o.tokens.Keys)
  {
    ClosestIsNearest(o.self, o.table, target, MAX_CANDIDATES);
    StartIsAtRest(o, Closest(o.table, target, MAX_CANDIDATES), budget, target);
  }

  // A search from any routing table: at most 96 queries, every peer once and
  // none of those reported before, tokens only of nodes asked, and the table in
  // order at the end.
  lemma SearchFromTable(o: Origins, target: NodeId, net: Network)
    requires TableInv(o.self, o.table)
    ensures var out := Rounds(SearchOf(o, target, LOOKUP_BUDGET), target, net, 0);
            && TotalAsked(out.rounds) <= LOOKUP_BUDGET && SentOnce(out.end, o.reported)
            && Tidy(out.end, o.tokens.Keys)
  {
    var start := SearchOf(o, target, LOOKUP_BUDGET);
    SearchOfIsAtRest(o, target, LOOKUP_BUDGET);
    BudgetIsSpent(start, target, net, 0, o.reported);
    PeersAreSentOnce(start, target, net, 0, o.reported);
    SearchIsTidy(start, target, net, 0, o.tokens.Keys);
  }

  // ---------- Two nodes at one address ----------

  // The table after it has heard of two nodes.
  function TwoNodes(self: NodeId, a: Node, b: Node): Buckets {
    Upsert(self, Upsert(self, EmptyTable().b, a).0, b).0
  }

  lemma NewNode(self: NodeId, b: Buckets, n: Node)
    requires TableInv(self, b) && n.id != self && (forall m :: Member(b, m) ==> m.id != n.id)
    requires forall i :: 0 <= i < |b| ==> |b[i]| < K
    ensures var after := Upsert(self, b, n).0;
            TableInv(self, after) && forall m :: Member(after, m) <==> m == n || Member(b, m)
  {
    UpsertKeeps(self, b, n);
    BucketIsDyadic(self, n.id, 0);
    var i := BucketIndex(self, n.id).value;
    var after := Upsert(self, b, n).0;
    assert Position(b[i], n.id).None? by {
      PositionFinds(b[i], n.id);
      assert forall m :: m in b[i] ==> Member(b, m);
    }
    assert after == b[i := b[i] + [n]];
    forall m ensures Member(after, m) <==> m == n || Member(b, m) {
      if m == n {
        assert m in after[i];
      }
      if Member(b, m) {
        var j :| 0 <= j < |b| && m in b[j];
        assert m in after[j];
      }
      if Member(after, m) {
        var j :| 0 <= j < |after| && m in after[j];
        assert j != i ==> m in b[j];
      }
    }
  }

  lemma TwoMembers(self: NodeId, a: Node, b: Node)
    requires a.id != b.id && a.id != self && b.id != self
    ensures TableInv(self, TwoNodes(self, a, b))
    ensures forall m :: Member(TwoNodes(self, a, b), m) <==> m == a || m == b
  {
    var empty := EmptyTable().b;
    assert TableInv(self, empty);
    NewNode(self, empty, a);
    NewNode(self, Upsert(self, empty, a).0, b);
  }

  lemma ClosestIsBoth(self: NodeId, a: Node, b: Node, target: NodeId)
    requires a.id != b.id && a.id != self && b.id != self
    ensures var r := Closest(TwoNodes(self, a, b), target, MAX_CANDIDATES);
            r == [a, b] || r == [b, a]
  {
    var table := TwoNodes(self, a, b);
    var all, r := Flatten(table), Closest(table, target, MAX_CANDIDATES);
    TwoMembers(self, a, b);
    MembersOf(self, table);
    ClosestIsNearest(self, table, target, MAX_CANDIDATES);
    TwoInAll(all, a, b);
    BothOf(r, a, b, target);
  }

  lemma TwoInAll(all: seq<Node>, a: Node, b: Node)
    requires DistinctIds(all) && a != b && forall n :: n in all <==> n == a || n == b
    ensures |all| == 2
  {
    assert SetOf(all) == {a, b} && Distinct(all);
    DistinctSize(all);
  }

  lemma BothOf(r: seq<Node>, a: Node, b: Node, target: NodeId)
    requires |r| == 2 && (forall n :: n in r ==> n == a || n == b) && Increasing(target, r)
    ensures r == [a, b] || r == [b, a]
  {
    assert r[0] in r && r[1] in r;
    assert Rank(target)(r[0]) < Rank(target)(r[1]);
    assert r == [r[0], r[1]];
  }

  // So a search asks one address twice in its first round when the table has
  // heard of it under two ids, whichever they are.
  lemma OneAddressTwice(o: Origins, a: Node, b: Node, target: NodeId, net: Network)
    requires a.id != b.id && a.id != o.self && b.id != o.self && a.addr == b.addr
    requires o.table == TwoNodes(o.self, a, b)
    ensures var rounds := Rounds(SearchOf(o, target, LOOKUP_BUDGET), target, net, 0).rounds;
            rounds != [] && (rounds[0].picked == [a, b] || rounds[0].picked == [b, a]) && AskedTwice(rounds)
  {
    var s := SearchOf(o, target, LOOKUP_BUDGET);
    ClosestIsBoth(o.self, a, b, target);
    PickIsPrefix(s.candidates, {}, ALPHA);
    OneRound(s, target, net, 0);
    assert SameAddress(Rounds(s, target, net, 0).rounds, 0, 0, 0, 1);
  }
}
