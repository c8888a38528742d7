/** Choking: a window over the interested peers moves round robin. */
module ChokeSpec {
  import opened Arithmetic
  import opened FiniteSets
  import opened PieceSpec

  const USIZE: nat := 0x1_0000_0000_0000_0000

  datatype ChokeState = ChokeState(unchoked: set<Peer>, cursor: nat)

  datatype Decision = Decision(unchoke: set<Peer>, choke: set<Peer>)

  // How many peers one call picks.
  function Take(limit: nat, n: nat): nat {
    if limit < n then limit else n
  }

  // `take` peers in a row, going round the list.
  function Rotate(peers: seq<Peer>, from: nat, take: nat): (w: seq<Peer>)
    requires peers != []
    ensures |w| == take && forall p :: p in w ==> p in peers
  {
    if take == 0 then [] else Rotate(peers, from, take - 1) + [peers[(from + (take - 1)) % |peers|]]
  }

  function Window(peers: seq<Peer>, limit: nat, cursor: nat): (w: seq<Peer>)
    ensures |w| == Take(limit, |peers|)
    ensures forall p :: p in w ==> p in peers
  {
    if limit == 0 || peers == [] then [] else Rotate(peers, cursor % |peers|, Take(limit, |peers|))
  }

  function Recompute(limit: nat, c: ChokeState, peers: seq<Peer>): (ChokeState, Decision) {
    var chosen := SetOf(Window(peers, limit, c.cursor));
    var step := if |chosen| == 0 then 1 else |chosen|;
    (ChokeState(chosen, (c.cursor + step) % USIZE), Decision(chosen - c.unchoked, c.unchoked - chosen))
  }

  // The messages turn the old set into the new one, change nothing twice, and
  // never leave more than `limit` peers unchoked.
  lemma DiffIsExact(limit: nat, c: ChokeState, peers: seq<Peer>)
    ensures var (c', d) := Recompute(limit, c, peers);
            && c'.unchoked == (c.unchoked - d.choke) + d.unchoke
            && d.unchoke !! c.unchoked && d.choke <= c.unchoked
            && c'.unchoked <= SetOf(peers) && |c'.unchoked| <= limit
  {
    var w := Window(peers, limit, c.cursor);
    DistinctSize(w);
    var (c', d) := Recompute(limit, c, peers);
    assert c'.unchoked == (c.unchoked - d.choke) + d.unchoke;
  }

  // ---------- Nobody waits for ever ----------

  lemma ModInjective(a: nat, b: nat, n: nat)
    requires a < b < a + n
    ensures a % n != b % n
  {
    var q, r, d := a / n, a % n, b - a;
    assert b == q * n + r + d;
    if r + d < n {
      DivUnique(b, n, q, r + d);
    } else {
      assert (q + 1) * n == q * n + n;
      DivUnique(b, n, q + 1, r + d - n);
    }
  }

  lemma {:induction false} RotateAt(peers: seq<Peer>, cursor: nat, take: nat, i: nat)
    requires peers != [] && i < take
    ensures Rotate(peers, cursor % |peers|, take)[i] == peers[(cursor + i) % |peers|]
  {
    if i + 1 == take {
      ModAdd(cursor, i, |peers|);
    } else {
      RotateAt(peers, cursor, take - 1, i);
    }
  }

  lemma WindowAt(peers: seq<Peer>, limit: nat, cursor: nat, i: nat)
    requires i < Take(limit, |peers|)
    ensures Window(peers, limit, cursor)[i] == peers[(cursor + i) % |peers|]
  {
    RotateAt(peers, cursor, Take(limit, |peers|), i);
  }

  // Nobody stands in the window twice.
  lemma WindowSize(peers: seq<Peer>, limit: nat, cursor: nat)
    requires Distinct(peers)
    ensures |SetOf(Window(peers, limit, cursor))| == Take(limit, |peers|)
  {
    var w := Window(peers, limit, cursor);
    forall i, j | 0 <= i < j < |w| ensures w[i] != w[j] {
      WindowAt(peers, limit, cursor, i);
      WindowAt(peers, limit, cursor, j);
      ModInjective(cursor + i, cursor + j, |peers|);
    }
    DistinctSize(w);
  }

  lemma InWindow(limit: nat, peers: seq<Peer>, cursor: nat, e: nat, x: nat)
    requires x < |peers| && e < Take(limit, |peers|) && (cursor + e) % |peers| == x
    ensures peers[x] in SetOf(Window(peers, limit, cursor))
  {
    WindowAt(peers, limit, cursor, e);
    assert Window(peers, limit, cursor)[e] in Window(peers, limit, cursor);
  }

  // The state after `calls` calls with one and the same list.
  ghost function After(limit: nat, c: ChokeState, peers: seq<Peer>, calls: nat): ChokeState {
    if calls == 0 then c else Recompute(limit, After(limit, c, peers, calls - 1), peers).0
  }

  // Where the cursor stands then, if each call takes `take` peers.
  function Position(cursor: nat, take: nat, calls: nat): nat {
    if calls == 0 then cursor else (Position(cursor, take, calls - 1) + take) % USIZE
  }

  lemma OneCall(limit: nat, c: ChokeState, peers: seq<Peer>)
    requires Distinct(peers) && peers != [] && 0 < limit
    ensures Recompute(limit, c, peers).0
         == ChokeState(SetOf(Window(peers, limit, c.cursor)), (c.cursor + Take(limit, |peers|)) % USIZE)
  {
    WindowSize(peers, limit, c.cursor);
  }

  lemma {:induction false} AfterIsPosition(limit: nat, c: ChokeState, peers: seq<Peer>, calls: nat)
    requires Distinct(peers) && peers != [] && 0 < limit
    ensures After(limit, c, peers, calls).cursor == Position(c.cursor, Take(limit, |peers|), calls)
  {
    if calls > 0 {
      AfterIsPosition(limit, c, peers, calls - 1);
      OneCall(limit, After(limit, c, peers, calls - 1), peers);
    }
  }

  lemma AfterIsWindow(limit: nat, c: ChokeState, peers: seq<Peer>, calls: nat)
    requires Distinct(peers) && peers != [] && 0 < limit
    ensures After(limit, c, peers, calls + 1).unchoked
         == SetOf(Window(peers, limit, Position(c.cursor, Take(limit, |peers|), calls)))
  {
    AfterIsPosition(limit, c, peers, calls);
    OneCall(limit, After(limit, c, peers, calls), peers);
  }

  lemma {:induction false} NoWrap(cursor: nat, take: nat, calls: nat)
    requires cursor + calls * take < USIZE
    ensures Position(cursor, take, calls) == cursor + calls * take
  {
    if calls > 0 {
      var before := cursor + (calls - 1) * take;
      assert before + take == cursor + calls * take by {
        NextProduct(calls - 1, take);
      }
      NoWrap(cursor, take, calls - 1);
      StepWithin(before, take);
    }
  }

  lemma StepWithin(cursor: nat, take: nat)
    requires cursor + take < USIZE
    ensures (cursor + take) % USIZE == cursor + take
  {
  }

  lemma NextProduct(j: nat, take: nat)
    ensures (j + 1) * take == j * take + take
  {
  }

  lemma CeilBounds(d: nat, n: nat, take: nat)
    requires 0 < take && d < n
    ensures d / take * take <= d < d / take * take + take
    ensures d / take < CeilDiv(n, take)
  {
  }

  // A limit above the number of peers unchokes all of them, in one call.
  lemma TakeAll(n: nat, limit: nat)
    requires 0 < n <= limit
    ensures CeilDiv(n, limit) == CeilDiv(n, n) == 1
  {
    DivUnique(n + limit - 1, limit, 1, n - 1);
    DivUnique(n + n - 1, n, 1, n - 1);
  }

  // How far behind the cursor the peer x comes.
  lemma Reach(cursor: nat, n: nat, x: nat) returns (d: nat)
    requires x < n
    ensures d < n && (cursor + d) % n == x
  {
    var r := cursor % n;
    d := if r <= x then x - r else x + n - r;
    ModAdd(cursor, d, n);
    if r <= x {
      DivUnique(x, n, 0, x);
    } else {
      DivUnique(x + n, n, 1, x);
    }
  }

  // Without a wrap, x is in the window of one of the first ceil(n / take) calls.
  lemma Covered(cursor: nat, n: nat, take: nat, x: nat) returns (j: nat, e: nat)
    requires x < n && 0 < take && cursor + n <= USIZE
    ensures j < CeilDiv(n, take) && e < take
    ensures (Position(cursor, take, j) + e) % n == x
  {
    var d := Reach(cursor, n, x);
    j, e := d / take, d - d / take * take;
    CeilBounds(d, n, take);
    NoWrap(cursor, take, j);
  }

  lemma TakenInTurn(limit: nat, n: nat)
    requires 0 < n && 0 < limit
    ensures CeilDiv(n, Take(limit, n)) == CeilDiv(n, limit)
  {
    if limit >= n {
      TakeAll(n, limit);
    }
  }

  lemma InTurn(limit: nat, c: ChokeState, peers: seq<Peer>, x: nat, j: nat, e: nat)
    requires Distinct(peers) && x < |peers| && 0 < limit && e < Take(limit, |peers|)
    requires (Position(c.cursor, Take(limit, |peers|), j) + e) % |peers| == x
    ensures peers[x] in After(limit, c, peers, j + 1).unchoked
  {
    AfterIsWindow(limit, c, peers, j);
    InWindow(limit, peers, Position(c.cursor, Take(limit, |peers|), j), e, x);
  }

  // Within any ceil(n / limit) calls in a row, each of the n peers is unchoked
  // at least once, unless the cursor wraps round on the way.
  lemma EveryoneGetsATurn(limit: nat, c: ChokeState, peers: seq<Peer>, x: nat) returns (call: nat)
    requires Distinct(peers) && x < |peers| && 0 < limit
    requires c.cursor + |peers| <= USIZE
    ensures 1 <= call <= CeilDiv(|peers|, limit)
    ensures peers[x] in After(limit, c, peers, call).unchoked
  {
    var take := Take(limit, |peers|);
    TakenInTurn(limit, |peers|);
    var j, e := Covered(c.cursor, |peers|, take, x);
    InTurn(limit, c, peers, x, j, e);
    call := j + 1;
  }

  // ---------- When the cursor wraps ----------

  lemma {:induction false} PositionSum(cursor: nat, take: nat, j: nat, k: nat)
    ensures Position(Position(cursor, take, j), take, k) == Position(cursor, take, j + k)
    decreases k
  {
    if k > 0 {
      PositionSum(cursor, take, j, k - 1);
    }
  }

  // The call at which the cursor wraps, if n more would take it over the end.
  lemma {:induction false} WrapAt(cursor: nat, take: nat, steps: nat) returns (j: nat)
    requires 0 < take <= USIZE && cursor < USIZE <= cursor + steps * take
    ensures j < steps && Position(cursor, take, j + 1) < take
    decreases steps
  {
    NextProduct(steps - 1, take);
    if cursor + (steps - 1) * take < USIZE {
      j := steps - 1;
      NoWrap(cursor, take, j);
      WrapOnce(Position(cursor, take, j), take);
    } else {
      j := WrapAt(cursor, take, steps - 1);
    }
  }

  lemma WrapOnce(cursor: nat, take: nat)
    requires cursor < USIZE <= cursor + take && take <= USIZE
    ensures (cursor + take) % USIZE < take
  {
    DivUnique(cursor + take, USIZE, 1, cursor + take - USIZE);
  }

  lemma CeilCovers(n: nat, take: nat)
    requires 0 < n && 0 < take
    ensures n <= CeilDiv(n, take) * take
  {
    var q := (n - 1) / take;
    CeilBounds(n - 1, n, take);
    NextProduct(q, take);
    MulApart(q + 1, CeilDiv(n, take), take);
  }

  // Past the wrap, x is in the window of one of the calls that follow.
  lemma CoveredLater(cursor: nat, n: nat, take: nat, x: nat) returns (j: nat, e: nat)
    requires x < n && 0 < take <= n && cursor < USIZE < cursor + n && 2 * n <= USIZE
    ensures j + 1 <= 2 * CeilDiv(n, take) && e < take
    ensures (Position(cursor, take, j) + e) % n == x
  {
    CeilCovers(n, take);
    var wrap := WrapAt(cursor, take, CeilDiv(n, take));
    var k;
    k, e := Covered(Position(cursor, take, wrap + 1), n, take, x);
    PositionSum(cursor, take, wrap + 1, k);
    j := wrap + 1 + k;
  }

  // Wherever the cursor stands, nobody waits longer than twice that. (A list in
  // memory is far shorter than half of the range of the cursor.)
  lemma NobodyWaitsLonger(limit: nat, c: ChokeState, peers: seq<Peer>, x: nat) returns (call: nat)
    requires Distinct(peers) && x < |peers| && 0 < limit
    requires c.cursor < USIZE && 2 * |peers| <= USIZE
    ensures 1 <= call <= 2 * CeilDiv(|peers|, limit)
    ensures peers[x] in After(limit, c, peers, call).unchoked
  {
    if c.cursor + |peers| <= USIZE {
      call := EveryoneGetsATurn(limit, c, peers, x);
    } else {
      TakenInTurn(limit, |peers|);
      var j, e := CoveredLater(c.cursor, |peers|, Take(limit, |peers|), x);
      InTurn(limit, c, peers, x, j, e);
      call := j + 1;
    }
  }

  // ---------- Exactly when ceil(n / limit) calls are enough ----------

  lemma {:induction false} PositionIs(cursor: nat, take: nat, calls: nat)
    requires cursor < USIZE
    ensures Position(cursor, take, calls) == (cursor + calls * take) % USIZE
  {
    if calls > 0 {
      PositionIs(cursor, take, calls - 1);
      NextProduct(calls - 1, take);
      ModAdd(cursor + (calls - 1) * take, take, USIZE);
    }
  }

  // Before the wrap, and after it.
  lemma PositionAt(cursor: nat, take: nat, calls: nat, walked: nat)
    requires cursor < USIZE && walked == calls * take && walked <= USIZE
    ensures Position(cursor, take, calls) == if cursor + walked < USIZE then cursor + walked else cursor + walked - USIZE
  {
    PositionIs(cursor, take, calls);
    if cursor + walked < USIZE {
      DivUnique(cursor + walked, USIZE, 0, cursor + walked);
    } else {
      DivUnique(cursor + walked, USIZE, 1, cursor + walked - USIZE);
    }
  }

  // The wrap moves the window back by the remainder of the range.
  lemma MovedBack(at: nat, n: nat)
    requires 0 < n && USIZE <= at
    ensures (at - USIZE) % n == (at - USIZE % n) % n
  {
    ModShift(at - USIZE, USIZE / n, n);
    assert USIZE == USIZE / n * n + USIZE % n;
  }

  lemma QuotientBelow(d: nat, take: nat, k: nat)
    requires 0 < take && d < k * take
    ensures d / take < k && d / take * take <= d < d / take * take + take
  {
    if k <= d / take {
      MulApart(k, d / take, take);
    }
  }

  // How many calls it takes without a wrap.
  lemma CallsNeeded(n: nat, take: nat, k: nat)
    requires 0 < take <= n && k == CeilDiv(n, take)
    ensures 0 < k && (k - 1) * take < n <= k * take
  {
    CeilCovers(n, take);
    NextProduct(k - 1, take);
  }

  lemma StraightOn(cursor: nat, n: nat, take: nat, j: nat, e: nat, d: nat)
    requires 0 < n && cursor + j * take < USIZE && j * take <= USIZE && d == j * take + e
    ensures (Position(cursor, take, j) + e) % n == (cursor + d) % n
  {
    PositionAt(cursor, take, j, j * take);
  }

  lemma PastTheWrap(cursor: nat, n: nat, take: nat, j: nat, e: nat, d: nat)
    requires 0 < n && cursor < USIZE <= cursor + j * take && j * take <= USIZE && d + USIZE % n == j * take + e
    ensures (Position(cursor, take, j) + e) % n == (cursor + d) % n
  {
    PositionAt(cursor, take, j, j * take);
    MovedBack(cursor + j * take + e, n);
  }

  // Enough: a peer that the window passes before the wrap, or behind it.
  lemma CoveredInTime(cursor: nat, n: nat, take: nat, x: nat, k: nat) returns (j: nat, e: nat)
    requires x < n && 0 < take <= n && cursor < USIZE && 2 * n <= USIZE
    requires k == CeilDiv(n, take)
    requires cursor + (k - 1) * take < USIZE || n + USIZE % n <= k * take
    ensures j < k && e < take && (Position(cursor, take, j) + e) % n == x
  {
    CallsNeeded(n, take, k);
    var d := Reach(cursor, n, x);
    QuotientBelow(d, take, k);
    j, e := d / take, d - d / take * take;
    WithinReach(j, k, take, n);
    if cursor + j * take < USIZE {
      StraightOn(cursor, n, take, j, e, d);
    } else {
      var j0 := j;
      j, e := LaterCall(d + USIZE % n, take, k, j0);
      WithinReach(j, k, take, n);
      PastTheWrap(cursor, n, take, j, e, d);
    }
  }

  lemma WithinReach(j: nat, k: nat, take: nat, n: nat)
    requires j < k && (k - 1) * take < n
    ensures j * take <= (k - 1) * take < n
  {
    MulApart(j, k - 1, take);
  }

  lemma LaterCall(m: nat, take: nat, k: nat, j0: nat) returns (j: nat, e: nat)
    requires 0 < take && m < k * take && j0 * take <= m
    ensures j < k && e < take && m == j * take + e && j0 * take <= j * take
  {
    QuotientBelow(m, take, k);
    j, e := m / take, m - m / take * take;
    MulApart(j + 1, j0, take);
    NextProduct(j, take);
    MulApart(j0, j, take);
  }

  // Not enough: the peer behind what the window passes before the wrap, and
  // behind what it passes after.
  function Missed(n: nat, reached: nat, covered: nat): nat
    requires 0 < n
  {
    if reached + USIZE % n < covered then covered - USIZE % n else reached
  }

  lemma MissedBefore(cursor: nat, n: nat, at: nat, missed: nat)
    requires 0 < n && at < missed < n
    ensures (cursor + at) % n != (cursor + missed) % n
  {
    ModInjective(cursor + at, cursor + missed, n);
  }

  lemma MissedBehind(cursor: nat, n: nat, at: nat, missed: nat)
    requires 0 < n && USIZE <= cursor + at && at < missed + USIZE % n < at + n
    ensures (cursor + at - USIZE) % n != (cursor + missed) % n
  {
    MovedBack(cursor + at, n);
    ModInjective(cursor + at - USIZE % n, cursor + missed, n);
  }

  // `w` is the first call that starts past the wrap.
  lemma NotCovered(cursor: nat, n: nat, take: nat, k: nat, w: nat, j: nat, e: nat)
    requires 0 < take <= n && cursor < USIZE && 2 * n <= USIZE && k == CeilDiv(n, take)
    requires 0 < w < k && cursor + (w - 1) * take < USIZE <= cursor + w * take && k * take < n + USIZE % n
    requires j < k && e < take
    ensures (Position(cursor, take, j) + e) % n != (cursor + Missed(n, w * take, k * take)) % n
  {
    CallsNeeded(n, take, k);
    WithinReach(j, k, take, n);
    WithinReach(w, k, take, n);
    if j < w {
      MulApart(j, w, take);
      WithinReach(j, w, take, (w - 1) * take + 1);
      StraightOn(cursor, n, take, j, e, j * take + e);
      MissedBefore(cursor, n, j * take + e, Missed(n, w * take, k * take));
    } else {
      MulApart(j, k, take);
      MulApart(w, j, take);
      AllLess(n, take, k, w);
      PositionAt(cursor, take, j, j * take);
      MissedBehind(cursor, n, j * take + e, Missed(n, w * take, k * take));
    }
  }

  // The calls behind the wrap do not go all round.
  lemma AllLess(n: nat, take: nat, k: nat, w: nat)
    requires 0 < w < k && (k - 1) * take < n
    ensures k * take < n + w * take
  {
    NextProduct(k - 1, take);
    MulApart(1, w, take);
  }

  lemma {:induction false} FirstPast(cursor: nat, take: nat, k: nat) returns (w: nat)
    requires cursor < USIZE <= cursor + k * take
    ensures 0 < w <= k && cursor + (w - 1) * take < USIZE <= cursor + w * take
    decreases k
  {
    if cursor + (k - 1) * take < USIZE {
      w := k;
    } else {
      w := FirstPast(cursor, take, k - 1);
    }
  }

  // Place e of the window of call j is that of x.
  predicate Hits(cursor: nat, n: nat, take: nat, x: nat, j: nat, e: nat) {
    0 < n && e < take && (Position(cursor, take, j) + e) % n == x
  }

  // Whoever is unchoked stands in the window.
  lemma OnlyInTurn(limit: nat, c: ChokeState, peers: seq<Peer>, x: nat, j: nat)
    requires Distinct(peers) && x < |peers| && 0 < limit
    ensures peers[x] in After(limit, c, peers, j + 1).unchoked ==>
              exists e: nat :: Hits(c.cursor, |peers|, Take(limit, |peers|), x, j, e)
  {
    AfterIsWindow(limit, c, peers, j);
    var from := Position(c.cursor, Take(limit, |peers|), j);
    if peers[x] in Window(peers, limit, from) {
      var e: nat :| e < |Window(peers, limit, from)| && Window(peers, limit, from)[e] == peers[x];
      WindowAt(peers, limit, from, e);
      assert Hits(c.cursor, |peers|, Take(limit, |peers|), x, j, e);
    }
  }

  ghost predicate ServedWithin(limit: nat, c: ChokeState, peers: seq<Peer>, x: nat, k: nat)
    requires x < |peers|
  {
    exists call: nat :: 1 <= call <= k && peers[x] in After(limit, c, peers, call).unchoked
  }

  // That many calls do not wrap the cursor, or cover the jump as well.
  predicate Enough(cursor: nat, n: nat, take: nat, k: nat) {
    0 < k && 0 < n && (cursor + (k - 1) * take < USIZE || n + USIZE % n <= k * take)
  }

  // Each of n peers is unchoked within ceil(n / limit) calls if and only if the
  // calls are enough in this sense. (A list in memory is far shorter than half
  // of the range of the cursor.)
  lemma EveryoneGetsATurnIff(limit: nat, c: ChokeState, peers: seq<Peer>)
    requires Distinct(peers) && peers != [] && 0 < limit
    requires c.cursor < USIZE && 2 * |peers| <= USIZE
    ensures var n, k := |peers|, CeilDiv(|peers|, limit);
            (forall x: nat :: x < n ==> ServedWithin(limit, c, peers, x, k)) <==> Enough(c.cursor, n, Take(limit, n), k)
  {
    var n, take, k := |peers|, Take(limit, |peers|), CeilDiv(|peers|, limit);
    TakenInTurn(limit, n);
    CallsNeeded(n, take, k);
    if Enough(c.cursor, n, take, k) {
      forall x: nat | x < n ensures ServedWithin(limit, c, peers, x, k) {
        var j, e := CoveredInTime(c.cursor, n, take, x, k);
        InTurn(limit, c, peers, x, j, e);
        assert peers[x] in After(limit, c, peers, j + 1).unchoked;
      }
    } else {
      var x := SomebodyMisses(limit, c, peers, k);
      assert !ServedWithin(limit, c, peers, x, k);
    }
  }

  lemma SomebodyMisses(limit: nat, c: ChokeState, peers: seq<Peer>, k: nat) returns (x: nat)
    requires Distinct(peers) && peers != [] && 0 < limit
    requires c.cursor < USIZE && 2 * |peers| <= USIZE && k == CeilDiv(|peers|, Take(limit, |peers|))
    requires !Enough(c.cursor, |peers|, Take(limit, |peers|), k)
    ensures x < |peers| && !ServedWithin(limit, c, peers, x, k)
  {
    x := MissedInAll(c.cursor, |peers|, Take(limit, |peers|), k);
    forall call: nat | 1 <= call <= k ensures peers[x] !in After(limit, c, peers, call).unchoked {
      OnlyInTurn(limit, c, peers, x, call - 1);
    }
  }

  lemma MissedInAll(cursor: nat, n: nat, take: nat, k: nat) returns (x: nat)
    requires 0 < take <= n && cursor < USIZE && 2 * n <= USIZE && k == CeilDiv(n, take) && !Enough(cursor, n, take, k)
    ensures x < n && forall j: nat, e: nat :: j < k ==> !Hits(cursor, n, take, x, j, e)
  {
    CallsNeeded(n, take, k);
    var w := FirstPast(cursor, take, k - 1);
    x := (cursor + Missed(n, w * take, k * take)) % n;
    forall j: nat, e: nat | j < k ensures !Hits(cursor, n, take, x, j, e) {
      if e < take {
        NotCovered(cursor, n, take, k, w, j, e);
      }
    }
  }

  // ---------- A cursor about to wrap ----------

  // With nobody interested the cursor moves on by one.
  lemma {:induction false} CallsForNobody(limit: nat, calls: nat)
    requires calls < USIZE
    ensures After(limit, ChokeState({}, 0), [], calls) == ChokeState({}, calls)
  {
    if calls > 0 {
      CallsForNobody(limit, calls - 1);
      StepWithin(calls - 1, 1);
      assert SetOf(Window([], limit, calls - 1)) == {};
    }
  }

  lemma FirstPositions()
    ensures Position(USIZE - 1, 1, 0) == USIZE - 1 && Position(USIZE - 1, 1, 1) == 0 && Position(USIZE - 1, 1, 2) == 1
    ensures (USIZE - 1) % 3 == 0
  {
  }

  // A new manager comes to skip a peer: of three, one at a time, the last is not
  // unchoked in three calls.
  lemma WrapSkips(peers: seq<Peer>, call: nat)
    requires Distinct(peers) && |peers| == 3 && 1 <= call <= 3
    ensures var c := After(1, ChokeState({}, 0), [], USIZE - 1);
            peers[2] !in After(1, c, peers, call).unchoked
  {
    CallsForNobody(1, USIZE - 1);
    AfterIsWindow(1, ChokeState({}, USIZE - 1), peers, call - 1);
    FirstPositions();
    WindowOfOne(peers, Position(USIZE - 1, 1, call - 1));
  }

  lemma WindowOfOne(peers: seq<Peer>, cursor: nat)
    requires Distinct(peers) && |peers| == 3 && cursor % 3 != 2
    ensures peers[2] !in SetOf(Window(peers, 1, cursor))
  {
    WindowAt(peers, 1, cursor, 0);
    assert Window(peers, 1, cursor) == [peers[cursor % 3]];
  }
}


/** The choke manager as the hub owns it. */
module Choking {
  import opened PieceSpec
  import opened FiniteSets
  import opened ChokeSpec

  class ChokeManager {
    const maxUnchoked: nat
    var unchoked: set<Peer>
    var cursor: nat

    ghost function Model(): ChokeState
      reads this
    {
      ChokeState(unchoked, cursor)
    }

    constructor (limit: nat)
      ensures maxUnchoked == limit && Model() == ChokeState({}, 0)
    {
      maxUnchoked, unchoked, cursor := limit, {}, 0;
    }

    method Choose(interested: seq<Peer>) returns (chosen: set<Peer>)
      ensures chosen == SetOf(Window(interested, maxUnchoked, cursor))
    {
      chosen := {};
      if maxUnchoked != 0 && interested != [] {
        var take := Take(maxUnchoked, |interested|);
        var start := cursor % |interested|;
        for i := 0 to take
          invariant chosen == SetOf(Rotate(interested, start, i))
        {
          chosen := chosen + {interested[(start + i) % |interested|]};
        }
      }
    }

    method Recompute(interested: seq<Peer>) returns (d: Decision)
      modifies this
      ensures (Model(), d) == ChokeSpec.Recompute(maxUnchoked, old(Model()), interested)
    {
      var chosen := Choose(interested);
      var step := if |chosen| == 0 then 1 else |chosen|;
      cursor := (cursor + step) % USIZE;
      d := Decision(chosen - unchoked, unchoked - chosen);
      unchoked := chosen;
    }
  }
}
