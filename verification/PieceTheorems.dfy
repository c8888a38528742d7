/** What the piece manager promises: nobody is left without work, refilling a
    peer's pipeline ends, and a finished piece is finished once and for all. */
module PieceTheorems {
  import opened Wrappers
  import opened Bytes
  import opened FiniteSets
  import opened PieceSpec
  import opened PieceInvariant

  // ---------- The picker ----------

  // The picker gives up on a peer exactly when every block that is still
  // wanted from the peer's pieces is already on request from that same peer.
  lemma NoStarvation(t: Torrent, s: State, peer: Peer, bf: set<nat>)
    requires Inv(t, s)
    ensures NoPick(t, s, peer, bf) <==>
            forall i: nat, k: nat :: Offered(t, s, bf, i) && Wanted(t, s, i, k) ==>
              (i, BlockStart(k)) in Own(s, peer) && (i, BlockStart(k)) in s.pending
  {
    if NoPick(t, s, peer, bf) {
      forall i: nat, k: nat | Offered(t, s, bf, i) && Wanted(t, s, i, k)
        ensures (i, BlockStart(k)) in Own(s, peer) && (i, BlockStart(k)) in s.pending
      {
        assert !New(t, s, bf, i) && !Partial(t, s, bf, i) && !Endgame(t, s, peer, bf, i);
        assert !FreeAt(s, i, k) && !DoubleAt(s, peer, i, k);
      }
    } else if AnyPartial(t, s, bf) {
      var i: nat :| Partial(t, s, bf, i);
      var k: nat :| FreeAt(s, i, k);
      assert Wanted(t, s, i, k);
    } else if AnyNew(t, s, bf) {
      var i: nat :| New(t, s, bf, i);
      assert Wanted(t, s, i, 0);
      assert forall p :: p in s.inFlight && (i, BlockStart(0)) in s.inFlight[p] ==> KeyInv(t, s.states, (i, BlockStart(0)));
    } else {
      var i: nat :| Endgame(t, s, peer, bf, i);
      var k: nat :| DoubleAt(s, peer, i, k);
      assert Wanted(t, s, i, k);
    }
  }

  // Pieces and block numbers wanted from a peer that has the pieces `bf`.
  ghost function Needed(t: Torrent, s: State, bf: set<nat>): set<(nat, nat)>
    requires Shape(t, s)
  {
    set i, k | i in Below(|s.states|) && k in Below(BlockCount(t.PieceLen(i))) && i in bf && Wanted(t, s, i, k) :: (i, k)
  }

  ghost function Outside(needed: set<(nat, nat)>, keys: set<Key>): set<(nat, nat)> {
    set ik | ik in needed && (ik.0, BlockStart(ik.1)) !in keys
  }

  ghost function Measure(t: Torrent, s: State, peer: Peer, bf: set<nat>): nat
    requires Shape(t, s)
  {
    |Outside(Needed(t, s, bf), s.pending)| + |Outside(Needed(t, s, bf), Own(s, peer))|
  }

  lemma OutsideShrinks(needed: set<(nat, nat)>, keys: set<Key>, ik: (nat, nat))
    requires ik in needed
    ensures var key := (ik.0, BlockStart(ik.1));
            if key in keys then Outside(needed, keys + {key}) == Outside(needed, keys)
            else |Outside(needed, keys + {key})| < |Outside(needed, keys)|
  {
    var key := (ik.0, BlockStart(ik.1));
    if key in keys {
      assert keys + {key} == keys;
    } else {
      assert ik in Outside(needed, keys);
      assert Outside(needed, keys + {key}) == Outside(needed, keys) - {ik};
    }
  }

  lemma SameNeeded(t: Torrent, s: State, peer: Peer, bf: set<nat>, req: BlockRequest)
    requires Shape(t, s) && req.piece < |s.states| && Shape(t, ApplyPick(t, s, peer, req))
    requires req.piece in bf && Wanted(t, s, req.piece, BlockIndex(req.begin))
    ensures Needed(t, ApplyPick(t, s, peer, req), bf) == Needed(t, s, bf)
    ensures (req.piece, BlockIndex(req.begin)) in Needed(t, s, bf)
  {
  }

  // Each pick brings the end of refilling nearer, even a pick of a block that
  // the peer was asked for before.
  lemma PickDecreases(t: Torrent, s: State, peer: Peer, bf: set<nat>, req: BlockRequest)
    requires Inv(t, s) && LegalPick(t, s, peer, bf, req)
    ensures Inv(t, ApplyPick(t, s, peer, req))
    ensures Measure(t, ApplyPick(t, s, peer, req), peer, bf) < Measure(t, s, peer, bf)
  {
    ApplyPickInv(t, s, peer, bf, req);
    PickIsWanted(t, s, peer, bf, req);
    PickIsDouble(t, s, peer, bf, req);
    var s' := ApplyPick(t, s, peer, req);
    var ik := (req.piece, BlockIndex(req.begin));
    SameNeeded(t, s, peer, bf, req);
    assert s'.pending == s.pending + {req.Key()} && Own(s', peer) == Own(s, peer) + {req.Key()};
    var needed := Needed(t, s, bf);
    OutsideShrinks(needed, s.pending, ik);
    OutsideShrinks(needed, Own(s, peer), ik);
  }

  // ---------- Finishing a piece ----------

  // A piece is handed over for writing only if it was not finished before,
  // whole, and with the right hash; nothing else makes a block finish a piece.
  lemma CompletedOnce(t: Torrent, s: State, peer: Peer, index: nat, begin: nat, data: seq<u8>)
    requires Inv(t, s)
    ensures var (s', ev) := OnBlock(t, s, peer, index, begin, data);
            match ev
            case Ok(PieceCompleted(i, whole)) =>
              && i == index && i !in DoneSet(s.states) && DoneSet(s'.states) == DoneSet(s.states) + {i}
              && i < |t.pieces| && |whole| == t.PieceLen(i) && t.sha1(whole) == t.pieces[i]
            case _ => DoneSet(s'.states) == DoneSet(s.states)
  {
    var (s', ev) := OnBlock(t, s, peer, index, begin, data);
    if s'.states != s.states {
      StoreInv(t, index, s.states[index].prog, begin, data);
      DoneSetUpdate(s.states, index, s'.states[index]);
    }
  }

  // ---------- Every run ----------

  datatype Op =
    | Bitfield(peer: Peer, bf: set<nat>)
    | Have(peer: Peer, index: nat)
    | Choked(peer: Peer)
    | Disconnected(peer: Peer)
    | Block(peer: Peer, index: nat, begin: nat, data: seq<u8>)
    | Verified(index: nat)
    | Pick(peer: Peer, bf: set<nat>, req: BlockRequest)

  // A bitfield is for the right number of pieces.
  ghost predicate Allowed(t: Torrent, s: State, op: Op)
    requires Shape(t, s)
  {
    match op
    case Bitfield(peer, bf) => bf <= Below(|t.pieces|)
    case Pick(peer, bf, req) => LegalPick(t, s, peer, bf, req)
    case _ => true
  }

  ghost function Step(t: Torrent, s: State, op: Op): (s': State)
    requires Inv(t, s) && Allowed(t, s, op)
    ensures Inv(t, s')
  {
    match op
    case Bitfield(peer, bf) => PeerBitfieldInv(t, s, peer, bf); OnPeerBitfield(s, peer, bf)
    case Have(peer, index) => PeerHaveInv(t, s, peer, index); OnPeerHave(s, peer, index)
    case Choked(peer) => ReleaseInv(t, s, peer); Release(s, peer)
    case Disconnected(peer) => PeerDisconnectedInv(t, s, peer); OnPeerDisconnected(s, peer)
    case Block(peer, index, begin, data) => OnBlockInv(t, s, peer, index, begin, data); OnBlock(t, s, peer, index, begin, data).0
    case Verified(index) => MarkVerifiedInv(t, s, index); MarkVerified(s, index)
    case Pick(peer, bf, req) => ApplyPickInv(t, s, peer, bf, req); ApplyPick(t, s, peer, req)
  }

  // The state after a run, if each operation was allowed when it came.
  ghost function Run(t: Torrent, ops: seq<Op>): (r: Option<State>)
    requires t.WF()
    ensures r.Some? ==> Inv(t, r.value)
  {
    if ops == [] then
      InitialInv(t);
      Some(Initial(t))
    else
      var last := |ops| - 1;
      var r := Run(t, ops[..last]);
      if r.Some? && Allowed(t, r.value, ops[last]) then Some(Step(t, r.value, ops[last])) else None
  }

  // How often a run finished piece i.
  ghost function Completions(t: Torrent, ops: seq<Op>, i: nat): nat
    requires t.WF()
  {
    if ops == [] then 0
    else
      var last := |ops| - 1;
      var r := Run(t, ops[..last]);
      Completions(t, ops[..last], i) +
      match ops[last]
      case Block(peer, index, begin, data) =>
        if r.Some? && OnBlock(t, r.value, peer, index, begin, data).1.Ok?
           && OnBlock(t, r.value, peer, index, begin, data).1.value.PieceCompleted?
           && OnBlock(t, r.value, peer, index, begin, data).1.value.index == i then 1 else 0
      case _ => 0
  }

  lemma {:induction false} DoneStays(t: Torrent, s: State, op: Op)
    requires Inv(t, s) && Allowed(t, s, op)
    ensures DoneSet(s.states) <= DoneSet(Step(t, s, op).states)
  {
    match op {
      case Block(peer, index, begin, data) => CompletedOnce(t, s, peer, index, begin, data);
      case Verified(index) => if index < |s.states| { DoneSetUpdate(s.states, index, Done); }
      case Pick(peer, bf, req) => ApplyPickInv(t, s, peer, bf, req);
      case _ => assert Step(t, s, op).states == s.states;
    }
  }

  lemma {:induction false} CompletedAtMostOnce(t: Torrent, ops: seq<Op>, i: nat)
    requires t.WF() && Run(t, ops).Some?
    ensures Completions(t, ops, i) <= 1
    ensures Completions(t, ops, i) == 1 ==> i in DoneSet(Run(t, ops).value.states)
  {
    if ops != [] {
      var last := |ops| - 1;
      CompletedAtMostOnce(t, ops[..last], i);
      var s := Run(t, ops[..last]).value;
      DoneStays(t, s, ops[last]);
      if ops[last].Block? {
        CompletedOnce(t, s, ops[last].peer, ops[last].index, ops[last].begin, ops[last].data);
      }
    }
  }

  // No block is requested while it is on request, and none arrives from one
  // peer while it is on request from others alone.
  ghost predicate Orderly(t: Torrent, ops: seq<Op>)
    requires t.WF()
  {
    ops == [] ||
    var last := |ops| - 1;
    Orderly(t, ops[..last]) && Run(t, ops[..last]).Some? && InOrder(Run(t, ops[..last]).value, ops[last])
  }

  predicate InOrder(s: State, op: Op) {
    match op
    case Block(peer, index, begin, _) => Due(s, peer, (index, begin))
    case Pick(_, _, req) => req.Key() !in s.pending
    case _ => true
  }

  lemma StepExactIff(t: Torrent, s: State, op: Op)
    requires Inv(t, s) && Allowed(t, s, op) && Exact(s)
    ensures Exact(Step(t, s, op)) <==> InOrder(s, op)
  {
    match op {
      case Bitfield(_, _) =>
      case Have(_, _) =>
      case Choked(peer) => ReleaseInv(t, s, peer);
      case Disconnected(peer) => PeerDisconnectedInv(t, s, peer);
      case Block(peer, index, begin, data) => OnBlockInv(t, s, peer, index, begin, data);
      case Verified(index) => MarkVerifiedInv(t, s, index);
      case Pick(peer, bf, req) => ApplyPickInv(t, s, peer, bf, req);
    }
  }

  // After every operation of the run, the requests of the peers are disjoint and
  // `pending` is their union.
  ghost predicate ExactAlong(t: Torrent, ops: seq<Op>)
    requires t.WF()
  {
    && Run(t, ops).Some? && Exact(Run(t, ops).value)
    && (ops == [] || ExactAlong(t, ops[..|ops| - 1]))
  }

  // So it is if and only if the run is orderly.
  lemma {:induction false} ExactIffOrderly(t: Torrent, ops: seq<Op>)
    requires t.WF() && Run(t, ops).Some?
    ensures ExactAlong(t, ops) <==> Orderly(t, ops)
  {
    if ops == [] {
      InitialInv(t);
    } else {
      var last := |ops| - 1;
      ExactIffOrderly(t, ops[..last]);
      if ExactAlong(t, ops[..last]) {
        StepExactIff(t, Run(t, ops[..last]).value, ops[last]);
      }
    }
  }

  // ---------- The counters of rarity ----------

  // No peer sends a bitfield when some piece of it is known.
  ghost predicate Announced(t: Torrent, ops: seq<Op>)
    requires t.WF()
  {
    ops == [] ||
    var last := |ops| - 1;
    && Announced(t, ops[..last]) && Run(t, ops[..last]).Some?
    && (ops[last].Bitfield? ==> Unmapped(Run(t, ops[..last]).value, ops[last].peer))
  }

  ghost predicate RarityAlong(t: Torrent, ops: seq<Op>)
    requires t.WF()
  {
    && Run(t, ops).Some? && RarityExact(Run(t, ops).value)
    && (ops == [] || RarityAlong(t, ops[..|ops| - 1]))
  }

  lemma StepRarityIff(t: Torrent, s: State, op: Op)
    requires Inv(t, s) && Allowed(t, s, op) && RarityExact(s)
    ensures RarityExact(Step(t, s, op)) <==> (op.Bitfield? ==> Unmapped(s, op.peer))
  {
    match op {
      case Bitfield(peer, bf) => PeerBitfieldInv(t, s, peer, bf);
      case Have(peer, index) => PeerHaveInv(t, s, peer, index);
      case Disconnected(peer) => PeerDisconnectedInv(t, s, peer);
      case Block(peer, index, begin, data) => OnBlockInv(t, s, peer, index, begin, data);
      case _ =>
        var s' := Step(t, s, op);
        assert s'.rarity == s.rarity && s'.peerPieces == s.peerPieces;
    }
  }

  // All along a run the counters are the numbers of peers known to have each
  // piece, if and only if every peer announces its pieces but once.
  lemma {:induction false} RarityIffAnnounced(t: Torrent, ops: seq<Op>)
    requires t.WF() && Run(t, ops).Some?
    ensures RarityAlong(t, ops) <==> Announced(t, ops)
  {
    if ops == [] {
      InitialInv(t);
    } else {
      var last := |ops| - 1;
      RarityIffAnnounced(t, ops[..last]);
      if RarityAlong(t, ops[..last]) {
        StepRarityIff(t, Run(t, ops[..last]).value, ops[last]);
      }
    }
  }

  // Two bitfields of one peer count it twice.
  lemma CountedTwice(t: Torrent, i: nat, p: Peer)
    requires t.WF() && i < |t.pieces|
    ensures var run := Run(t, [Bitfield(p, {i}), Bitfield(p, {i})]);
            run.Some? && run.value.rarity[i] == 2 && |Holders(run.value.peerPieces, i)| == 1
  {
    InitialInv(t);
    var op := Bitfield(p, {i});
    assert Run(t, []) == Some(Initial(t)) && [op][..0] == [];
    RunOfTwo(t, op, op);
    assert Holders(Run(t, [op, op]).value.peerPieces, i) == {p};
  }

  // ---------- Blocks that nobody asked for ----------

  // The block is the next one wanted in its place of a piece that was started.
  predicate Acceptable(t: Torrent, s: State, i: nat, begin: nat, data: seq<u8>)
    requires Shape(t, s)
  {
    && i < |s.states| && s.states[i].InProgress? && data != [] && begin + |data| <= t.PieceLen(i)
    && !s.states[i].prog.received[BlockIndex(begin)] && |data| == BlockLen(t.PieceLen(i), BlockIndex(begin))
  }

  // The block is kept, or was the last of a piece that has the wrong hash.
  predicate Taken(s: State, s': State, i: nat, r: Result<PieceEvent, EngineError>) {
    r.Ok? && (s'.states != s.states || r.value == PieceHashMismatch(i))
  }

  // Who was asked for a block plays no part in whether it is taken.
  lemma TakenIff(t: Torrent, s: State, peer: Peer, i: nat, begin: nat, data: seq<u8>)
    requires Inv(t, s)
    ensures var (s', r) := OnBlock(t, s, peer, i, begin, data);
            Taken(s, s', i, r) <==> Acceptable(t, s, i, begin, data)
  {
    if Acceptable(t, s, i, begin, data) {
      var prog := s.states[i].prog;
      StoreInv(t, i, prog, begin, data);
      TakenIsSeen(t, s, peer, i, begin, data);
    }
  }

  lemma TakenIsSeen(t: Torrent, s: State, peer: Peer, i: nat, begin: nat, data: seq<u8>)
    requires Inv(t, s) && Acceptable(t, s, i, begin, data)
    requires Received(Store(t, i, s.states[i].prog, begin, data)) == Received(s.states[i].prog) + {BlockIndex(begin)}
    ensures var (s', r) := OnBlock(t, s, peer, i, begin, data); Taken(s, s', i, r)
  {
    var (s', r) := OnBlock(t, s, peer, i, begin, data);
    assert s'.states[i] == Settle(t, i, Store(t, i, s.states[i].prog, begin, data)).0;
    assert BlockIndex(begin) !in Received(s.states[i].prog);
  }

  function FirstBlock(t: Torrent, i: nat): BlockRequest
    requires t.WF() && i < |t.pieces|
  {
    BlockRequest(i, 0, BlockLen(t.PieceLen(i), 0))
  }

  lemma FirstPick(t: Torrent, i: nat, p: Peer)
    requires t.WF() && i < |t.pieces| && Requestable(t, i)
    ensures var pick := Pick(p, {i}, FirstBlock(t, i));
            && Run(t, [pick]) == Some(ApplyPick(t, Initial(t), p, FirstBlock(t, i)))
            && Own(Run(t, [pick]).value, p) == {(i, 0)} && Run(t, [pick]).value.pending == {(i, 0)}
  {
    InitialInv(t);
    BlockFits(t.PieceLen(i), 0);
    assert New(t, Initial(t), {i}, i);
    assert LegalPick(t, Initial(t), p, {i}, FirstBlock(t, i));
    assert Run(t, []) == Some(Initial(t));
    assert [Pick(p, {i}, FirstBlock(t, i))][..0] == [];
  }

  lemma RunOfTwo(t: Torrent, a: Op, b: Op)
    requires t.WF() && Run(t, [a]).Some? && Allowed(t, Run(t, [a]).value, b)
    ensures Run(t, [a, b]) == Some(Step(t, Run(t, [a]).value, b))
  {
    assert [a, b][..1] == [a];
  }

  // A peer is asked for the first block of a piece and chokes us, so that
  // nothing is on request; the block is taken from anyone all the same.
  lemma UnrequestedIsTaken(t: Torrent, i: nat, p: Peer, q: Peer, data: seq<u8>)
    requires t.WF() && i < |t.pieces| && Requestable(t, i) && |data| == BlockLen(t.PieceLen(i), 0)
    ensures var run := Run(t, [Pick(p, {i}, FirstBlock(t, i)), Choked(p)]);
            && run.Some? && run.value.pending == {} && (forall r :: Own(run.value, r) == {})
            && var (s', r) := OnBlock(t, run.value, q, i, 0, data); Taken(run.value, s', i, r)
  {
    var pick := Pick(p, {i}, FirstBlock(t, i));
    FirstPick(t, i, p);
    RunOfTwo(t, pick, Choked(p));
    BlockFits(t.PieceLen(i), 0);
    TakenIff(t, Run(t, [pick, Choked(p)]).value, q, i, 0, data);
  }

  // A block that comes from another peer than the one asked leaves a request
  // that is no longer pending.
  lemma OtherPeerAnswers(t: Torrent, i: nat, p: Peer, q: Peer, data: seq<u8>)
    requires t.WF() && i < |t.pieces| && Requestable(t, i) && p != q
    ensures var run := Run(t, [Pick(p, {i}, FirstBlock(t, i)), Block(q, i, 0, data)]);
            run.Some? && !Exact(run.value)
  {
    var pick := Pick(p, {i}, FirstBlock(t, i));
    FirstPick(t, i, p);
    RunOfTwo(t, pick, Block(q, i, 0, data));
    OnBlockInv(t, Run(t, [pick]).value, q, i, 0, data);
    var s' := Run(t, [pick, Block(q, i, 0, data)]).value;
    assert p in s'.inFlight && (i, 0) in s'.inFlight[p] && (i, 0) !in s'.pending;
  }
}
