/** The iterative search of the hash table: rounds of queries to the nearest
    nodes not asked yet, whose answers bring nearer nodes and peers. */
module LookupSpec {
  import opened Wrappers
  import opened Bytes
  import opened XorMetric
  import opened Sorting
  import opened Nodes
  import opened RoutingSpec

  const ALPHA: nat := 3
  const MAX_CANDIDATES: nat := 16
  const LOOKUP_BUDGET: nat := 96

  type TxId = u16

  type Token = seq<u8>

  type Table = b: Buckets | |b| == BUCKETS witness seq(BUCKETS, _ => [])

  /** What arrives while a round waits: an answer, a query of another node,
      anything else, or the news that nobody waits for the search any more. */
  datatype Datagram =
    | Response(tx: TxId, from: Addr, id: NodeId, token: Option<Token>, nodes: seq<Node>, values: seq<Addr>)
    | Query(sender: Node)
    | Other
    | Closed

  /** One round as the network plays it: the sends that fail, and what arrives
      before the deadline. */
  datatype Reply = Reply(failed: set<nat>, datagrams: seq<Datagram>)

  type Network = nat -> Reply

  datatype DhtError = NoNodes | ClientGone

  datatype Search = Search(
    candidates: seq<Node>,
    queried: set<Addr>,
    budget: nat,
    pending: map<TxId, Addr>,
    late: map<TxId, Addr>,
    reported: set<Addr>,
    sent: seq<Addr>,
    nextTx: TxId,
    self: NodeId,
    table: Table,
    tokens: map<Addr, Token>)

  function Addrs(nodes: seq<Node>): set<Addr> {
    set n | n in nodes :: n.addr
  }

  // ---------- One round ----------

  // The first candidates not asked yet, as many as there is room for.
  function Pick(candidates: seq<Node>, queried: set<Addr>, room: nat): (r: seq<Node>)
    ensures |r| <= room
  {
    if candidates == [] || room == 0 then []
    else if candidates[0].addr in queried then Pick(candidates[1..], queried, room)
    else [candidates[0]] + Pick(candidates[1..], queried, room - 1)
  }

  function Room(budget: nat): nat {
    if budget < ALPHA then budget else ALPHA
  }

  function NextTx(tx: TxId): TxId {
    if tx == U16_MAX then 0 else tx + 1
  }

  function Send(s: Search, picked: seq<Node>, failed: set<nat>): Search {
    if picked == [] then s
    else
      var last := |picked| - 1;
      var before := Send(s, picked[..last], failed);
      before.(queried := before.queried + {picked[last].addr},
              pending := if last in failed then before.pending else before.pending[before.nextTx := picked[last].addr],
              nextTx := NextTx(before.nextTx))
  }

  // The nodes of an answer that are neither asked nor known.
  function Fresh(candidates: seq<Node>, nodes: seq<Node>, queried: set<Addr>): seq<Node> {
    if nodes == [] then candidates
    else
      var last := |nodes| - 1;
      var before := Fresh(candidates, nodes[..last], queried);
      if nodes[last].addr in queried || nodes[last].addr in Addrs(before) then before else before + [nodes[last]]
  }

  function MergeCandidates(candidates: seq<Node>, nodes: seq<Node>, queried: set<Addr>, target: NodeId): seq<Node> {
    Take(SortByKey(Rank(target), Fresh(candidates, nodes, queried)), MAX_CANDIDATES)
  }

  // Peers reported before are not sent again.
  function Report(s: Search, values: seq<Addr>): Search {
    if values == [] then s
    else
      var last := |values| - 1;
      var before := Report(s, values[..last]);
      if values[last] in before.reported then before
      else before.(reported := before.reported + {values[last]}, sent := before.sent + [values[last]])
  }

  // An answer counts if the node asked under its number is the one it is from.
  function Origin(s: Search, tx: TxId): Option<Addr> {
    if tx in s.pending then Some(s.pending[tx])
    else if tx in s.late then Some(s.late[tx])
    else None
  }

  function Forget(s: Search, tx: TxId): Search {
    if tx in s.pending then s.(pending := s.pending - {tx}) else s.(late := s.late - {tx})
  }

  function Learn(self: NodeId, table: Table, node: Node): Table {
    Upsert(self, table, node).0
  }

  function LearnAll(self: NodeId, table: Table, nodes: seq<Node>): Table {
    if nodes == [] then table
    else Learn(self, LearnAll(self, table, nodes[..|nodes| - 1]), nodes[|nodes| - 1])
  }

  // What an answer tells: its sender is alive, its token, and other nodes.
  function Noted(s: Search, target: NodeId, d: Datagram): Search
    requires d.Response?
  {
    s.(table := LearnAll(s.self, Learn(s.self, s.table, Node(d.id, d.from)), d.nodes),
       tokens := if d.token.Some? then s.tokens[d.from := d.token.value] else s.tokens,
       candidates := MergeCandidates(s.candidates, d.nodes, s.queried, target))
  }

  function Receive(s: Search, target: NodeId, d: Datagram): Search {
    match d
    case Response(tx, from, _, _, _, values) =>
      if Origin(s, tx) != Some(from) then Forget(s, tx) else Report(Noted(Forget(s, tx), target, d), values)
    case Query(sender) => s.(table := Learn(s.self, s.table, sender))
    case _ => s
  }

  // Until every answer is there, the deadline passes, or the client is gone.
  function ReceiveAll(s: Search, target: NodeId, datagrams: seq<Datagram>): (Search, bool)
    decreases |datagrams|
  {
    if s.pending == map[] || datagrams == [] then (s, false)
    else if datagrams[0].Closed? then (s, true)
    else ReceiveAll(Receive(s, target, datagrams[0]), target, datagrams[1..])
  }

  function Unasked(candidates: seq<Node>, queried: set<Addr>): seq<Node> {
    if candidates == [] then []
    else
      var last := |candidates| - 1;
      var before := Unasked(candidates[..last], queried);
      if candidates[last].addr in queried then before else before + [candidates[last]]
  }

  function EndRound(s: Search, target: NodeId): Search {
    s.(late := s.late + s.pending,
       pending := map[],
       candidates := Take(SortByKey(Rank(target), Unasked(s.candidates, s.queried)), MAX_CANDIDATES))
  }

  // ---------- The search ----------

  /** A round: the search at its start, and the nodes asked. */
  datatype Round = Round(start: Search, picked: seq<Node>)

  datatype Outcome = Outcome(gone: bool, rounds: seq<Round>, end: Search)

  function Picked(s: Search): (r: seq<Node>)
    ensures |r| <= s.budget
  {
    Pick(s.candidates, s.queried, Room(s.budget))
  }

  function Asked(s: Search, failed: set<nat>): Search {
    Send(s, Picked(s), failed).(budget := s.budget - |Picked(s)|)
  }

  // The search when the round's wait is over, and whether the client is gone.
  function Heard(s: Search, target: NodeId, reply: Reply): (Search, bool) {
    ReceiveAll(Asked(s, reply.failed), target, reply.datagrams)
  }

  lemma HeardKeepsBudget(s: Search, target: NodeId, reply: Reply)
    ensures Heard(s, target, reply).0.budget == s.budget - |Picked(s)|
  {
    ReceiveKeepsBudget(Asked(s, reply.failed), target, reply.datagrams);
  }

  function Rounds(s: Search, target: NodeId, net: Network, n: nat): Outcome
    decreases s.budget
  {
    if Picked(s) == [] then Outcome(false, [], s)
    else
      HeardKeepsBudget(s, target, net(n));
      var (heard, gone) := Heard(s, target, net(n));
      if gone then Outcome(true, [Round(s, Picked(s))], heard)
      else
        var rest := Rounds(EndRound(heard, target), target, net, n + 1);
        rest.(rounds := [Round(s, Picked(s))] + rest.rounds)
  }

  lemma {:induction false} ReportKeepsBudget(s: Search, values: seq<Addr>)
    ensures Report(s, values).budget == s.budget
  {
    if values != [] {
      ReportKeepsBudget(s, values[..|values| - 1]);
    }
  }

  lemma {:induction false} ReceiveKeepsBudget(s: Search, target: NodeId, datagrams: seq<Datagram>)
    ensures ReceiveAll(s, target, datagrams).0.budget == s.budget
    decreases |datagrams|
  {
    if s.pending != map[] && datagrams != [] && !datagrams[0].Closed? {
      var d := datagrams[0];
      if d.Response? {
        ReportKeepsBudget(Noted(Forget(s, d.tx), target, d), d.values);
      }
      ReceiveKeepsBudget(Receive(s, target, d), target, datagrams[1..]);
    }
  }

  /** What a search starts from: our id, the routing table, the tokens held, the
      peers reported before, and the next number for a query. */
  datatype Origins = Origins(self: NodeId, table: Table, tokens: map<Addr, Token>, reported: set<Addr>, nextTx: TxId)

  function StartSearch(o: Origins, candidates: seq<Node>, budget: nat): Search {
    Search(candidates, {}, budget, map[], map[], o.reported, [], o.nextTx, o.self, o.table, o.tokens)
  }

  // The search of the program: from the nodes of its table nearest to the target.
  function SearchOf(o: Origins, target: NodeId, budget: nat): Search {
    StartSearch(o, Closest(o.table, target, MAX_CANDIDATES), budget)
  }
}
