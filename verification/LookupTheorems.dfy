/** What every search keeps to, whatever the network answers. */
module LookupTheorems {
  import opened Wrappers
  import opened XorMetric
  import opened Sorting
  import opened FiniteSets
  import opened Nodes
  import opened LookupSpec
  import opened RoutingSpec
  import opened RoutingTheorems

  ghost predicate DistinctAddrs(s: seq<Node>) {
    forall i, j :: 0 <= i < j < |s| ==> s[i].addr != s[j].addr
  }

  // ---------- Candidates ----------

  lemma {:induction false} FreshIsNew(candidates: seq<Node>, nodes: seq<Node>, queried: set<Addr>)
    ensures candidates <= Fresh(candidates, nodes, queried)
    ensures forall n :: n in Fresh(candidates, nodes, queried) ==>
              n in candidates || (n in nodes && n.addr !in queried && n.addr !in Addrs(candidates))
  {
    if nodes != [] {
      var last := |nodes| - 1;
      var before := Fresh(candidates, nodes[..last], queried);
      FreshIsNew(candidates, nodes[..last], queried);
      assert forall n :: n in nodes[..last] ==> n in nodes;
      assert nodes[last] in nodes;
      assert Addrs(candidates) <= Addrs(before);
    }
  }

  lemma {:induction false} FreshCovers(candidates: seq<Node>, nodes: seq<Node>, queried: set<Addr>)
    ensures forall n :: n in nodes ==> n.addr in queried || n.addr in Addrs(Fresh(candidates, nodes, queried))
  {
    if nodes != [] {
      var last := |nodes| - 1;
      var before, r := Fresh(candidates, nodes[..last], queried), Fresh(candidates, nodes, queried);
      FreshCovers(candidates, nodes[..last], queried);
      assert nodes == nodes[..last] + [nodes[last]];
      assert Addrs(before) <= Addrs(r);
      if r != before {
        assert r[|before|] == nodes[last];
      }
    }
  }

  lemma {:induction false} FreshDistinct(candidates: seq<Node>, nodes: seq<Node>, queried: set<Addr>)
    requires DistinctAddrs(candidates)
    ensures DistinctAddrs(Fresh(candidates, nodes, queried))
  {
    if nodes != [] {
      var last := |nodes| - 1;
      var before := Fresh(candidates, nodes[..last], queried);
      FreshDistinct(candidates, nodes[..last], queried);
      assert forall i :: 0 <= i < |before| ==> before[i].addr in Addrs(before);
    }
  }

  lemma SelectionIsDistinct(s: seq<Node>, r: seq<Node>)
    requires DistinctAddrs(s) && multiset(r) <= multiset(s)
    ensures DistinctAddrs(r)
  {
    var f := (n: Node) => n.addr;
    assert DistinctBy(f, s);
    DistinctInside(f, s, r);
    assert forall i :: 0 <= i < |r| ==> f(r[i]) == r[i].addr;
  }

  // After merging, the candidates are the nearest sixteen of the old ones and
  // of those nodes of the answer that are neither asked nor known, in order.
  lemma MergeIsNearest(candidates: seq<Node>, nodes: seq<Node>, queried: set<Addr>, target: NodeId)
    ensures var all := Fresh(candidates, nodes, queried);
            var r := MergeCandidates(candidates, nodes, queried, target);
            && Sorted(Rank(target), r) && |r| == (if |all| < MAX_CANDIDATES then |all| else MAX_CANDIDATES)
            && (forall n :: n in r ==> n in candidates || (n in nodes && n.addr !in queried && n.addr !in Addrs(candidates)))
            && (forall n :: n in nodes ==> n.addr in queried || n.addr in Addrs(all))
            && (forall a, b :: a in r && (b in candidates || b in all) && b !in r ==> Rank(target)(a) <= Rank(target)(b))
            && (DistinctAddrs(candidates) ==> DistinctAddrs(r))
  {
    var all := Fresh(candidates, nodes, queried);
    var r := MergeCandidates(candidates, nodes, queried, target);
    FreshIsNew(candidates, nodes, queried);
    FreshCovers(candidates, nodes, queried);
    TakeIsLeast(Rank(target), all, MAX_CANDIDATES);
    assert forall n :: n in r ==> n in multiset(r) && n in multiset(all);
    if DistinctAddrs(candidates) {
      FreshDistinct(candidates, nodes, queried);
      SelectionIsDistinct(all, r);
    }
  }

  lemma {:induction false} UnaskedWorks(candidates: seq<Node>, queried: set<Addr>)
    ensures forall n :: n in Unasked(candidates, queried) <==> n in candidates && n.addr !in queried
    ensures multiset(Unasked(candidates, queried)) <= multiset(candidates)
  {
    if candidates != [] {
      var last := |candidates| - 1;
      UnaskedWorks(candidates[..last], queried);
      assert candidates == candidates[..last] + [candidates[last]];
    }
  }

  lemma TakeFirst<T>(s: seq<T>, count: nat)
    requires s != [] && count > 0
    ensures Take(s, count) == [s[0]] + Take(s[1..], count - 1)
  {
  }

  lemma {:induction false} PickIsPrefix(candidates: seq<Node>, queried: set<Addr>, room: nat)
    requires forall n :: n in candidates ==> n.addr !in queried
    ensures Pick(candidates, queried, room) == Take(candidates, room)
  {
    if candidates != [] && room > 0 {
      PickIsPrefix(candidates[1..], queried, room - 1);
      TakeFirst(candidates, room);
    }
  }

  // ---------- Between rounds ----------

  // Nothing is pending; the candidates are the nearest first, at most sixteen,
  // and none of them has been asked.
  ghost predicate AtRest(s: Search, target: NodeId) {
    && s.pending == map[]
    && (forall tx :: tx in s.late ==> s.late[tx] in s.queried)
    && Sorted(Rank(target), s.candidates)
    && |s.candidates| <= MAX_CANDIDATES
    && forall n :: n in s.candidates ==> n.addr !in s.queried
  }

  // Whatever is awaited was asked.
  ghost predicate Awaiting(s: Search) {
    && (forall tx :: tx in s.late ==> s.late[tx] in s.queried)
    && (forall tx :: tx in s.pending ==> s.pending[tx] in s.queried)
  }

  lemma {:induction false} SendWorks(s: Search, picked: seq<Node>, failed: set<nat>)
    requires Awaiting(s)
    ensures var r := Send(s, picked, failed);
            && Awaiting(r) && r.queried == s.queried + Addrs(picked)
            && r.candidates == s.candidates && r.reported == s.reported && r.sent == s.sent
  {
    if picked != [] {
      var last := |picked| - 1;
      SendWorks(s, picked[..last], failed);
      assert picked == picked[..last] + [picked[last]];
      assert Addrs(picked) == Addrs(picked[..last]) + {picked[last].addr};
    }
  }

  // ---------- Peers ----------

  // The peers sent are different, and were not reported before.
  ghost predicate SentOnce(s: Search, already: set<Addr>) {
    && Distinct(s.sent)
    && s.reported == already + SetOf(s.sent)
    && SetOf(s.sent) !! already
  }

  lemma SetOfMore<T>(s: seq<T>, x: T)
    ensures SetOf(s + [x]) == SetOf(s) + {x}
  {
  }

  lemma {:induction false} ReportWorks(s: Search, values: seq<Addr>, already: set<Addr>)
    requires SentOnce(s, already)
    ensures SentOnce(Report(s, values), already) && s.sent <= Report(s, values).sent
    ensures SetOf(Report(s, values).sent) == SetOf(s.sent) + (SetOf(values) - already)
  {
    if values != [] {
      var last := |values| - 1;
      var before := Report(s, values[..last]);
      ReportWorks(s, values[..last], already);
      SetOfMore(values[..last], values[last]);
      SetOfMore(before.sent, values[last]);
      assert values == values[..last] + [values[last]];
    }
  }

  lemma {:induction false} ReportFrame(s: Search, values: seq<Addr>)
    ensures Report(s, values) == s.(reported := Report(s, values).reported, sent := Report(s, values).sent)
  {
    if values != [] {
      ReportFrame(s, values[..|values| - 1]);
    }
  }

  // An answer from a node that was asked brought the peer.
  ghost predicate Brought(p: Addr, queried: set<Addr>, datagrams: seq<Datagram>) {
    exists d :: d in datagrams && d.Response? && d.from in queried && p in d.values
  }

  // What receiving keeps: only answers of asked nodes add peers, and each once.
  ghost predicate Received(s: Search, r: Search, already: set<Addr>, datagrams: seq<Datagram>) {
    && Awaiting(r) && SentOnce(r, already)
    && r.queried == s.queried && r.budget == s.budget && s.sent <= r.sent
    && (DistinctAddrs(s.candidates) ==> DistinctAddrs(r.candidates))
    && forall p :: p in r.sent ==> p in s.sent || Brought(p, s.queried, datagrams)
  }

  lemma ReceiveWorks(s: Search, target: NodeId, d: Datagram, already: set<Addr>)
    requires Awaiting(s) && SentOnce(s, already)
    ensures Received(s, Receive(s, target, d), already, [d])
  {
    if d.Response? && Origin(s, d.tx) == Some(d.from) {
      var rest := Forget(s, d.tx);
      var noted := Noted(rest, target, d);
      MergeIsNearest(rest.candidates, d.nodes, rest.queried, target);
      ReportWorks(noted, d.values, already);
      ReportFrame(noted, d.values);
      assert d in [d];
      forall p | p in Report(noted, d.values).sent && p !in s.sent ensures Brought(p, s.queried, [d]) {
        assert p in SetOf(Report(noted, d.values).sent);
        assert p in d.values;
      }
    }
  }

  lemma BroughtLater(p: Addr, queried: set<Addr>, d: Datagram, more: seq<Datagram>)
    ensures Brought(p, queried, [d]) || Brought(p, queried, more) ==> Brought(p, queried, [d] + more)
  {
  }

  lemma {:induction false} ReceiveAllWorks(s: Search, target: NodeId, datagrams: seq<Datagram>, already: set<Addr>)
    requires Awaiting(s) && SentOnce(s, already)
    ensures Received(s, ReceiveAll(s, target, datagrams).0, already, datagrams)
    decreases |datagrams|
  {
    if s.pending != map[] && datagrams != [] && !datagrams[0].Closed? {
      var next := Receive(s, target, datagrams[0]);
      ReceiveWorks(s, target, datagrams[0], already);
      ReceiveAllWorks(next, target, datagrams[1..], already);
      assert datagrams == [datagrams[0]] + datagrams[1..];
      forall p ensures Brought(p, s.queried, [datagrams[0]]) || Brought(p, s.queried, datagrams[1..])
                       ==> Brought(p, s.queried, datagrams) {
        BroughtLater(p, s.queried, datagrams[0], datagrams[1..]);
      }
    }
  }

  lemma EndRoundRests(s: Search, target: NodeId)
    requires Awaiting(s)
    ensures AtRest(EndRound(s, target), target)
    ensures DistinctAddrs(s.candidates) ==> DistinctAddrs(EndRound(s, target).candidates)
  {
    var unasked, r := Unasked(s.candidates, s.queried), EndRound(s, target).candidates;
    UnaskedWorks(s.candidates, s.queried);
    TakeIsLeast(Rank(target), unasked, MAX_CANDIDATES);
    assert forall n :: n in r ==> n in multiset(r) && n in multiset(unasked);
    if DistinctAddrs(s.candidates) {
      SelectionIsDistinct(s.candidates, r);
    }
  }

  // ---------- One round ----------

  // Between s and the end of its round.
  ghost predicate RoundDone(s: Search, r: Search, already: set<Addr>, reply: Reply) {
    && SentOnce(r, already)
    && r.queried == s.queried + Addrs(Picked(s))
    && r.budget == s.budget - |Picked(s)|
    && s.sent <= r.sent
    && (DistinctAddrs(s.candidates) ==> DistinctAddrs(r.candidates))
    && forall p :: p in r.sent ==> p in s.sent || Brought(p, r.queried, reply.datagrams)
  }

  lemma PickedIsNearest(s: Search, target: NodeId)
    requires AtRest(s, target)
    ensures Picked(s) == Take(s.candidates, Room(s.budget))
  {
    PickIsPrefix(s.candidates, s.queried, Room(s.budget));
  }

  lemma AskedWorks(s: Search, failed: set<nat>)
    requires Awaiting(s)
    ensures var r := Asked(s, failed);
            && Awaiting(r) && r.queried == s.queried + Addrs(Picked(s)) && r.budget == s.budget - |Picked(s)|
            && r.candidates == s.candidates && r.reported == s.reported && r.sent == s.sent
  {
    SendWorks(s, Picked(s), failed);
  }

  lemma HeardWorks(s: Search, target: NodeId, reply: Reply, already: set<Addr>)
    requires AtRest(s, target) && SentOnce(s, already)
    ensures Picked(s) == Take(s.candidates, Room(s.budget))
    ensures Awaiting(Heard(s, target, reply).0) && RoundDone(s, Heard(s, target, reply).0, already, reply)
  {
    PickedIsNearest(s, target);
    AskedWorks(s, reply.failed);
    ReceiveAllWorks(Asked(s, reply.failed), target, reply.datagrams, already);
  }

  // The search after a round that was not cut off.
  ghost function AfterRound(s: Search, target: NodeId, reply: Reply): Search {
    EndRound(Heard(s, target, reply).0, target)
  }

  lemma RoundWorks(s: Search, target: NodeId, reply: Reply, already: set<Addr>)
    requires AtRest(s, target) && SentOnce(s, already)
    ensures Picked(s) == Take(s.candidates, Room(s.budget))
    ensures AtRest(AfterRound(s, target, reply), target) && RoundDone(s, AfterRound(s, target, reply), already, reply)
  {
    HeardWorks(s, target, reply, already);
    EndRoundRests(Heard(s, target, reply).0, target);
  }

  lemma OneRound(s: Search, target: NodeId, net: Network, n: nat)
    ensures var o := Rounds(s, target, net, n);
            if Picked(s) == [] then o == Outcome(false, [], s)
            else if Heard(s, target, net(n)).1 then o == Outcome(true, [Round(s, Picked(s))], Heard(s, target, net(n)).0)
            else
              var rest := Rounds(AfterRound(s, target, net(n)), target, net, n + 1);
              o == Outcome(rest.gone, [Round(s, Picked(s))] + rest.rounds, rest.end)
  {
  }

  // ---------- The whole search ----------

  // A round asks the nearest candidates, as many as three or the budget allow.
  ghost predicate RoundOk(r: Round, s: Search, target: NodeId) {
    && AtRest(r.start, target) && s.queried <= r.start.queried && r.start.budget <= s.budget
    && r.picked == Take(r.start.candidates, Room(r.start.budget)) && r.picked != []
    && (DistinctAddrs(s.candidates) ==> DistinctAddrs(r.start.candidates))
  }

  lemma RestsAfterRound(s: Search, target: NodeId, reply: Reply, already: set<Addr>)
    requires AtRest(s, target) && SentOnce(s, already)
    ensures AtRest(AfterRound(s, target, reply), target) && SentOnce(AfterRound(s, target, reply), already)
    ensures s.queried + Addrs(Picked(s)) == AfterRound(s, target, reply).queried
    ensures AfterRound(s, target, reply).budget == s.budget - |Picked(s)|
    ensures DistinctAddrs(s.candidates) ==> DistinctAddrs(AfterRound(s, target, reply).candidates)
  {
    RoundWorks(s, target, reply, already);
  }

  // A later round knows what was asked before it.
  ghost predicate Chain(rounds: seq<Round>) {
    forall i, j :: 0 <= i < j < |rounds| ==> Addrs(rounds[i].picked) <= rounds[j].start.queried
  }

  lemma ChainCons(r: Round, rest: seq<Round>)
    requires Chain(rest) && forall x :: x in rest ==> Addrs(r.picked) <= x.start.queried
    ensures Chain([r] + rest)
  {
  }

  lemma FirstRoundOk(s: Search, target: NodeId)
    requires AtRest(s, target) && Picked(s) != []
    ensures RoundOk(Round(s, Picked(s)), s, target)
  {
    PickedIsNearest(s, target);
  }

  lemma RoundOkBefore(r: Round, s: Search, after: Search, target: NodeId)
    requires RoundOk(r, after, target) && s.queried <= after.queried && after.budget <= s.budget
    requires DistinctAddrs(s.candidates) ==> DistinctAddrs(after.candidates)
    ensures RoundOk(r, s, target)
  {
  }

  lemma {:induction false} EveryRound(s: Search, target: NodeId, net: Network, n: nat, already: set<Addr>)
    requires AtRest(s, target) && SentOnce(s, already)
    ensures forall r :: r in Rounds(s, target, net, n).rounds ==> RoundOk(r, s, target)
    ensures Chain(Rounds(s, target, net, n).rounds)
    decreases s.budget
  {
    OneRound(s, target, net, n);
    if Picked(s) != [] {
      FirstRoundOk(s, target);
      if !Heard(s, target, net(n)).1 {
        var after := AfterRound(s, target, net(n));
        RestsAfterRound(s, target, net(n), already);
        EveryRound(after, target, net, n + 1, already);
        var rest := Rounds(after, target, net, n + 1).rounds;
        forall r | r in rest ensures RoundOk(r, s, target) {
          RoundOkBefore(r, s, after, target);
        }
        ChainCons(Round(s, Picked(s)), rest);
      }
    }
  }

  lemma PickedIsNew(r: Round, target: NodeId)
    requires AtRest(r.start, target) && r.picked == Take(r.start.candidates, Room(r.start.budget))
    ensures Addrs(r.picked) !! r.start.queried
  {
  }

  lemma ChainAvoids(rounds: seq<Round>, s: Search, target: NodeId, i: nat, j: nat)
    requires Chain(rounds) && (forall r :: r in rounds ==> RoundOk(r, s, target)) && i < j < |rounds|
    ensures Addrs(rounds[i].picked) !! Addrs(rounds[j].picked)
  {
    assert RoundOk(rounds[j], s, target);
    PickedIsNew(rounds[j], target);
  }

  // What one round asks, no later round asks.
  lemma NotAskedAgain(s: Search, target: NodeId, net: Network, n: nat, already: set<Addr>, i: nat, j: nat)
    requires AtRest(s, target) && SentOnce(s, already) && i < j < |Rounds(s, target, net, n).rounds|
    ensures var rounds := Rounds(s, target, net, n).rounds; Addrs(rounds[i].picked) !! Addrs(rounds[j].picked)
  {
    EveryRound(s, target, net, n, already);
    ChainAvoids(Rounds(s, target, net, n).rounds, s, target, i, j);
  }

  // Some address is asked at two places of the rounds.
  ghost predicate AskedTwice(rounds: seq<Round>) {
    exists i, k, j, l :: SameAddress(rounds, i, k, j, l) && (i != j || k != l)
  }

  ghost predicate SameAddress(rounds: seq<Round>, i: int, k: int, j: int, l: int) {
    && 0 <= i < |rounds| && 0 <= k < |rounds[i].picked| && 0 <= j < |rounds| && 0 <= l < |rounds[j].picked|
    && rounds[i].picked[k].addr == rounds[j].picked[l].addr
  }

  // A search asks an address twice if and only if one of its rounds does, that
  // is, if two of the nearest candidates that a round has room for share it.
  lemma AskedTwiceIff(s: Search, target: NodeId, net: Network, n: nat, already: set<Addr>)
    requires AtRest(s, target) && SentOnce(s, already)
    ensures var rounds := Rounds(s, target, net, n).rounds;
            && (AskedTwice(rounds) <==> exists r :: r in rounds && !DistinctAddrs(r.picked))
            && forall r :: r in rounds ==> r.picked == Take(r.start.candidates, Room(r.start.budget))
    ensures DistinctAddrs(s.candidates) ==> !AskedTwice(Rounds(s, target, net, n).rounds)
  {
    EveryRound(s, target, net, n, already);
    TwiceInOne(Rounds(s, target, net, n).rounds, s, target);
  }

  lemma SendAwaits(s: Search, picked: seq<Node>)
    requires picked != []
    ensures Send(s, picked, {}).pending != map[]
  {
    var last := |picked| - 1;
    var before := Send(s, picked[..last], {});
    assert before.nextTx in Send(s, picked, {}).pending;
  }

  // A client that leaves in the first round.
  function LeavesAtOnce(): Network {
    (n: nat) => Reply({}, [Closed])
  }

  lemma OnlyOneRound(s: Search, target: NodeId)
    requires Picked(s) != []
    ensures Rounds(s, target, LeavesAtOnce(), 0).rounds == [Round(s, Picked(s))]
  {
    SendAwaits(s, Picked(s));
    OneRound(s, target, LeavesAtOnce(), 0);
  }

  // Every network makes the search ask an address twice if and only if two of
  // the candidates that its first round has room for share it.
  lemma AlwaysTwiceIff(s: Search, target: NodeId)
    requires AtRest(s, target)
    ensures (forall net: Network :: AskedTwice(Rounds(s, target, net, 0).rounds))
            <==> !DistinctAddrs(Take(s.candidates, Room(s.budget)))
  {
    PickedIsNearest(s, target);
    if DistinctAddrs(Picked(s)) {
      OnceInOneRound(s, target);
    } else {
      forall net: Network ensures AskedTwice(Rounds(s, target, net, 0).rounds) {
        OneRound(s, target, net, 0);
        OneRoundTwice(Rounds(s, target, net, 0).rounds, 0);
      }
    }
  }

  lemma OnceInOneRound(s: Search, target: NodeId)
    requires DistinctAddrs(Picked(s))
    ensures !AskedTwice(Rounds(s, target, LeavesAtOnce(), 0).rounds)
  {
    if Picked(s) != [] {
      OnlyOneRound(s, target);
      forall i, k, j, l | SameAddress([Round(s, Picked(s))], i, k, j, l) ensures i == j && k == l {
      }
    } else {
      OneRound(s, target, LeavesAtOnce(), 0);
    }
  }

  lemma OneRoundTwice(rounds: seq<Round>, i: nat)
    requires i < |rounds| && !DistinctAddrs(rounds[i].picked)
    ensures AskedTwice(rounds)
  {
    var k, l :| 0 <= k < l < |rounds[i].picked| && rounds[i].picked[k].addr == rounds[i].picked[l].addr;
    assert SameAddress(rounds, i, k, i, l);
  }

  lemma TwiceInSome(rounds: seq<Round>, s: Search, target: NodeId)
    requires Chain(rounds) && (forall r :: r in rounds ==> RoundOk(r, s, target)) && AskedTwice(rounds)
    ensures exists r :: r in rounds && !DistinctAddrs(r.picked)
  {
    var i, k, j, l :| SameAddress(rounds, i, k, j, l) && (i != j || k != l);
    AllDifferent(rounds, s, target, i, k, j, l);
    assert rounds[i] in rounds && !DistinctAddrs(rounds[i].picked);
  }

  lemma TwiceInOne(rounds: seq<Round>, s: Search, target: NodeId)
    requires Chain(rounds) && forall r :: r in rounds ==> RoundOk(r, s, target)
    ensures AskedTwice(rounds) <==> exists r :: r in rounds && !DistinctAddrs(r.picked)
    ensures DistinctAddrs(s.candidates) ==> forall r :: r in rounds ==> DistinctAddrs(r.picked)
  {
    if AskedTwice(rounds) {
      TwiceInSome(rounds, s, target);
    } else {
      forall i: nat | i < |rounds| ensures DistinctAddrs(rounds[i].picked) {
        if !DistinctAddrs(rounds[i].picked) {
          OneRoundTwice(rounds, i);
        }
      }
    }
  }

  // Two rounds have no address in common.
  lemma AllDifferent(rounds: seq<Round>, s: Search, target: NodeId, i: int, k: int, j: int, l: int)
    requires Chain(rounds) && (forall r :: r in rounds ==> RoundOk(r, s, target))
    requires SameAddress(rounds, i, k, j, l)
    ensures i == j
  {
    assert rounds[i].picked[k].addr in Addrs(rounds[i].picked);
    assert rounds[j].picked[l].addr in Addrs(rounds[j].picked);
    if i < j {
      ChainAvoids(rounds, s, target, i, j);
    } else if j < i {
      ChainAvoids(rounds, s, target, j, i);
    }
  }

  ghost function TotalAsked(rounds: seq<Round>): nat {
    if rounds == [] then 0 else |rounds[0].picked| + TotalAsked(rounds[1..])
  }

  // Queries and what is left of the budget make up the budget, and a search
  // that is not cut off stops only without candidates or without budget.
  lemma {:induction false} BudgetIsSpent(s: Search, target: NodeId, net: Network, n: nat, already: set<Addr>)
    requires AtRest(s, target) && SentOnce(s, already)
    ensures var o := Rounds(s, target, net, n);
            && TotalAsked(o.rounds) + o.end.budget == s.budget
            && (!o.gone ==> o.end.candidates == [] || o.end.budget == 0)
    decreases s.budget
  {
    OneRound(s, target, net, n);
    HeardWorks(s, target, net(n), already);
    if Picked(s) != [] {
      if Heard(s, target, net(n)).1 {
        assert [Round(s, Picked(s))][1..] == [];
      } else {
        var after := AfterRound(s, target, net(n));
        RoundWorks(s, target, net(n), already);
        BudgetIsSpent(after, target, net, n + 1, already);
        var rest := Rounds(after, target, net, n + 1).rounds;
        assert ([Round(s, Picked(s))] + rest)[1..] == rest;
      }
    }
  }

  // Every peer is sent once, and came from a node that was asked.
  lemma {:induction false} PeersAreSentOnce(s: Search, target: NodeId, net: Network, n: nat, already: set<Addr>)
    requires AtRest(s, target) && SentOnce(s, already)
    ensures SentOnce(Rounds(s, target, net, n).end, already) && s.queried <= Rounds(s, target, net, n).end.queried
    decreases s.budget
  {
    OneRound(s, target, net, n);
    HeardWorks(s, target, net(n), already);
    if Picked(s) != [] && !Heard(s, target, net(n)).1 {
      RoundWorks(s, target, net(n), already);
      PeersAreSentOnce(AfterRound(s, target, net(n)), target, net, n + 1, already);
    }
  }

  lemma {:induction false} PeersAreBrought(s: Search, target: NodeId, net: Network, n: nat, already: set<Addr>, p: Addr)
    requires AtRest(s, target) && SentOnce(s, already)
    requires p in Rounds(s, target, net, n).end.sent && p !in s.sent
    ensures exists m: nat :: n <= m && Brought(p, Rounds(s, target, net, n).end.queried, net(m).datagrams)
    decreases s.budget
  {
    OneRound(s, target, net, n);
    HeardWorks(s, target, net(n), already);
    if Heard(s, target, net(n)).1 {
      assert Brought(p, Rounds(s, target, net, n).end.queried, net(n).datagrams);
    } else {
      var after := AfterRound(s, target, net(n));
      RoundWorks(s, target, net(n), already);
      if p in after.sent {
        PeersAreSentOnce(after, target, net, n + 1, already);
        BroughtByMore(p, after.queried, Rounds(s, target, net, n).end.queried, net(n).datagrams);
      } else {
        PeersAreBrought(after, target, net, n + 1, already, p);
      }
    }
  }

  lemma BroughtByMore(p: Addr, few: set<Addr>, many: set<Addr>, datagrams: seq<Datagram>)
    requires few <= many && Brought(p, few, datagrams)
    ensures Brought(p, many, datagrams)
  {
  }

  // ---------- The table and the tokens ----------

  // The table is in order, and tokens are only those held before and those of
  // nodes that were asked.
  ghost predicate Tidy(s: Search, held: set<Addr>) {
    TableInv(s.self, s.table) && s.tokens.Keys <= held + s.queried
  }

  lemma {:induction false} LearnAllKeeps(self: NodeId, table: Table, nodes: seq<Node>)
    requires TableInv(self, table)
    ensures TableInv(self, LearnAll(self, table, nodes))
  {
    if nodes != [] {
      LearnAllKeeps(self, table, nodes[..|nodes| - 1]);
      UpsertKeeps(self, LearnAll(self, table, nodes[..|nodes| - 1]), nodes[|nodes| - 1]);
    }
  }

  lemma ReceiveTidy(s: Search, target: NodeId, d: Datagram, held: set<Addr>)
    requires Awaiting(s) && Tidy(s, held)
    ensures var r := Receive(s, target, d);
            Awaiting(r) && Tidy(r, held) && r.queried == s.queried && r.self == s.self
  {
    match d {
      case Response(tx, from, id, token, nodes, values) =>
        if Origin(s, tx) == Some(from) {
          UpsertKeeps(s.self, s.table, Node(id, from));
          LearnAllKeeps(s.self, Learn(s.self, s.table, Node(id, from)), nodes);
          ReportFrame(Noted(Forget(s, tx), target, d), values);
        }
      case Query(sender) => UpsertKeeps(s.self, s.table, sender);
      case _ =>
    }
  }

  lemma {:induction false} ReceiveAllTidy(s: Search, target: NodeId, datagrams: seq<Datagram>, held: set<Addr>)
    requires Awaiting(s) && Tidy(s, held)
    ensures Tidy(ReceiveAll(s, target, datagrams).0, held) && Awaiting(ReceiveAll(s, target, datagrams).0)
    decreases |datagrams|
  {
    if s.pending != map[] && datagrams != [] && !datagrams[0].Closed? {
      ReceiveTidy(s, target, datagrams[0], held);
      ReceiveAllTidy(Receive(s, target, datagrams[0]), target, datagrams[1..], held);
    }
  }

  lemma {:induction false} SendFrame(s: Search, picked: seq<Node>, failed: set<nat>)
    ensures var r := Send(s, picked, failed);
            r == s.(queried := r.queried, pending := r.pending, nextTx := r.nextTx) && s.queried <= r.queried
  {
    if picked != [] {
      SendFrame(s, picked[..|picked| - 1], failed);
    }
  }

  lemma HeardTidy(s: Search, target: NodeId, reply: Reply, held: set<Addr>)
    requires AtRest(s, target) && Tidy(s, held)
    ensures Tidy(Heard(s, target, reply).0, held) && Awaiting(Heard(s, target, reply).0)
  {
    SendFrame(s, Picked(s), reply.failed);
    AskedWorks(s, reply.failed);
    ReceiveAllTidy(Asked(s, reply.failed), target, reply.datagrams, held);
  }

  // Whatever the network sends, the routing table keeps its invariant, and the
  // tokens gained are those of nodes that were asked.
  lemma {:induction false} SearchIsTidy(s: Search, target: NodeId, net: Network, n: nat, held: set<Addr>)
    requires AtRest(s, target) && Tidy(s, held)
    ensures Tidy(Rounds(s, target, net, n).end, held)
    decreases s.budget
  {
    OneRound(s, target, net, n);
    HeardTidy(s, target, net(n), held);
    if Picked(s) != [] && !Heard(s, target, net(n)).1 {
      HeardKeepsBudget(s, target, net(n));
      EndRoundRests(Heard(s, target, net(n)).0, target);
      SearchIsTidy(AfterRound(s, target, net(n)), target, net, n + 1, held);
    }
  }

  // A search starts at rest from nodes in order of distance, at most sixteen.
  lemma StartIsAtRest(o: Origins, candidates: seq<Node>, budget: nat, target: NodeId)
    requires Sorted(Rank(target), candidates) && |candidates| <= MAX_CANDIDATES
    ensures AtRest(StartSearch(o, candidates, budget), target)
    ensures SentOnce(StartSearch(o, candidates, budget), o.reported)
  {
  }
}
