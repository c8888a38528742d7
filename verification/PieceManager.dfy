/** The piece manager as the engine runs it: an object whose methods update
    its tables, each proved to do what PieceSpec says. */
module PieceManagement {
  import opened Wrappers
  import opened Bytes
  import opened FiniteSets
  import opened PieceSpec
  import opened PieceInvariant

  // One key fewer to release.
  lemma TakeOff(all: set<Key>, own: set<Key>, keys: set<Key>, key: Key)
    requires key in keys && keys <= own
    ensures all - (own - keys) - {key} == all - (own - (keys - {key}))
  {
  }

  // Every started piece with a free block that the peer has, with its rarity.
  ghost predicate ListsPartial(t: Torrent, s: State, bf: set<nat>, candidates: seq<(nat, nat)>)
    requires Shape(t, s)
  {
    && (forall c :: c in candidates ==> Partial(t, s, bf, c.0) && c.1 == s.rarity[c.0])
    && forall j: nat :: Partial(t, s, bf, j) ==> (j, s.rarity[j]) in candidates
  }

  ghost predicate IsRarest(candidates: seq<(nat, nat)>, piece: nat) {
    exists c :: c in candidates && c.0 == piece && forall d :: d in candidates ==> c.1 <= d.1
  }

  lemma RarestIsPartial(t: Torrent, s: State, bf: set<nat>, candidates: seq<(nat, nat)>, i: nat)
    requires Shape(t, s) && ListsPartial(t, s, bf, candidates) && IsRarest(candidates, i)
    ensures Partial(t, s, bf, i) && forall j: nat :: Partial(t, s, bf, j) ==> s.rarity[i] <= s.rarity[j]
  {
    var c :| c in candidates && c.0 == i && forall d :: d in candidates ==> c.1 <= d.1;
    forall j: nat | Partial(t, s, bf, j) ensures s.rarity[i] <= s.rarity[j] {
      assert (j, s.rarity[j]) in candidates;
    }
  }

  lemma AnyIsListed(t: Torrent, s: State, bf: set<nat>, candidates: seq<(nat, nat)>)
    requires Shape(t, s) && ListsPartial(t, s, bf, candidates)
    ensures AnyPartial(t, s, bf) <==> candidates != []
  {
    if candidates != [] {
      assert candidates[0] in candidates;
    }
  }

  lemma FreeIsFound(t: Torrent, s: State, bf: set<nat>, i: nat, k: Option<nat>)
    requires Shape(t, s) && Partial(t, s, bf, i)
    requires k.None? ==> forall j: nat :: !FreeAt(s, i, j)
    ensures k.Some?
  {
    var j: nat :| FreeAt(s, i, j);
  }

  class PieceManager {
    const torrent: Torrent
    var states: seq<PieceState>
    var rarity: seq<nat>
    var peerPieces: map<Peer, set<nat>>
    var inFlight: map<Peer, set<Key>>
    var pending: set<Key>
    var doneCount: nat

    ghost function Model(): State
      reads this
    {
      State(states, rarity, peerPieces, inFlight, pending, doneCount)
    }

    ghost predicate Valid()
      reads this
    {
      Inv(torrent, Model())
    }

    constructor (t: Torrent)
      requires t.WF()
      ensures torrent == t && Valid() && Model() == Initial(t)
    {
      torrent := t;
      states := seq(|t.pieces|, _ => Missing);
      rarity := seq(|t.pieces|, _ => 0);
      peerPieces, inFlight, pending, doneCount := map[], map[], {}, 0;
      new;
      InitialInv(t);
    }

    method OnPeerBitfield(peer: Peer, bitfield: set<nat>)
      requires Valid() && bitfield <= Below(|torrent.pieces|)
      modifies this
      ensures Valid() && Model() == PieceSpec.OnPeerBitfield(old(Model()), peer, bitfield)
    {
      PeerBitfieldInv(torrent, Model(), peer, bitfield);
      for i := 0 to |rarity|
        invariant |rarity| == |old(rarity)|
        invariant forall j :: 0 <= j < |rarity| ==>
                    rarity[j] == if j < i && j in bitfield then old(rarity)[j] + 1 else old(rarity)[j]
        invariant Model() == old(Model()).(rarity := rarity)
      {
        if i in bitfield {
          rarity := rarity[i := rarity[i] + 1];
        }
      }
      peerPieces := peerPieces[peer := bitfield];
      assert Model().rarity == PieceSpec.OnPeerBitfield(old(Model()), peer, bitfield).rarity;
    }

    method OnPeerHave(peer: Peer, index: nat)
      requires Valid()
      modifies this
      ensures Valid() && Model() == PieceSpec.OnPeerHave(old(Model()), peer, index)
    {
      PeerHaveInv(torrent, Model(), peer, index);
      if peer !in peerPieces {
        return;
      }
      if index in peerPieces[peer] {
        return;
      }
      if index < |rarity| {
        peerPieces := peerPieces[peer := peerPieces[peer] + {index}];
        rarity := rarity[index := rarity[index] + 1];
      }
    }

    method ReleaseInFlight(peer: Peer)
      requires Valid()
      modifies this
      ensures Valid() && Model() == Release(old(Model()), peer)
    {
      ReleaseInv(torrent, Model(), peer);
      if peer in inFlight {
        var keys := inFlight[peer];
        inFlight := inFlight[peer := {}];
        while keys != {}
          invariant keys <= old(inFlight[peer])
          invariant pending == old(pending) - (old(inFlight[peer]) - keys)
          invariant Model() == old(Model()).(inFlight := old(inFlight)[peer := {}], pending := pending)
          decreases keys
        {
          var key :| key in keys;
          TakeOff(old(pending), old(inFlight[peer]), keys, key);
          pending := pending - {key};
          keys := keys - {key};
        }
        assert pending == old(pending) - old(inFlight[peer]);
      }
    }

    method OnPeerDisconnected(peer: Peer)
      requires Valid()
      modifies this
      ensures Valid() && Model() == PieceSpec.OnPeerDisconnected(old(Model()), peer)
    {
      PeerDisconnectedInv(torrent, Model(), peer);
      ForgetPiecesInv(torrent, Model(), peer);
      if peer in peerPieces {
        var bitfield := peerPieces[peer];
        peerPieces := peerPieces - {peer};
        for i := 0 to |rarity|
          invariant |rarity| == |old(rarity)|
          invariant forall j :: 0 <= j < |rarity| ==>
                      rarity[j] == if j < i && j in bitfield && 0 < old(rarity)[j] then old(rarity)[j] - 1 else old(rarity)[j]
          invariant Model() == old(Model()).(rarity := rarity, peerPieces := old(peerPieces) - {peer})
        {
          if i in bitfield && 0 < rarity[i] {
            rarity := rarity[i := rarity[i] - 1];
          }
        }
      }
      assert Model().rarity == ForgetPieces(old(Model()), peer).rarity;
      ReleaseInFlight(peer);
      inFlight := inFlight - {peer};
    }

    // The request of this peer is answered.
    method ForgetRequest(peer: Peer, key: Key)
      requires Valid()
      modifies this`inFlight, this`pending
      ensures Valid() && Model() == DropRequest(old(Model()), peer, key)
    {
      DropRequestInv(torrent, Model(), peer, key);
      if peer in inFlight {
        inFlight := inFlight[peer := inFlight[peer] - {key}];
      }
      pending := pending - {key};
    }

    method OnBlockReceived(peer: Peer, index: nat, begin: nat, data: seq<u8>) returns (r: Result<PieceEvent, EngineError>)
      requires Valid()
      modifies this
      ensures Valid() && (Model(), r) == OnBlock(torrent, old(Model()), peer, index, begin, data)
    {
      OnBlockInv(torrent, Model(), peer, index, begin, data);
      ForgetRequest(peer, (index, begin));
      if |data| == 0 || |states| <= index {
        return Err(InvalidBlock(index, begin));
      }
      var pieceLen := torrent.PieceLen(index);
      if begin + |data| > pieceLen {
        return Err(InvalidBlock(index, begin));
      }
      if !states[index].InProgress? {
        return Ok(BlockStored);
      }
      var prog := states[index].prog;
      var blockIndex := BlockIndex(begin);
      if prog.received[blockIndex] {
        return Ok(BlockStored);
      }
      if |data| != BlockLen(pieceLen, blockIndex) {
        return Ok(BlockStored);
      }
      var buf := if prog.data.Some? then prog.data.value else Zeros(pieceLen);
      buf := buf[..begin] + data + buf[begin + |data|..];
      prog := Progress(prog.received[blockIndex := true], prog.receivedCount + 1, Some(buf));
      assert prog == Store(torrent, index, old(states[index]).prog, begin, data);
      states := states[index := InProgress(prog)];
      if prog.receivedCount < |prog.received| {
        return Ok(BlockStored);
      }
      if torrent.sha1(buf) == torrent.pieces[index] {
        states := states[index := Done];
        doneCount := doneCount + 1;
        r := Ok(PieceCompleted(index, buf));
      } else {
        states := states[index := InProgress(Empty(|prog.received|))];
        r := Ok(PieceHashMismatch(index));
      }
      assert states == old(states)[index := Settle(torrent, index, prog).0];
    }

    method IsComplete() returns (r: bool)
      requires Valid()
      ensures r == PieceSpec.IsComplete(torrent, Model())
      ensures r <==> DoneSet(states) == Below(|torrent.pieces|)
    {
      r := doneCount == |torrent.pieces|;
      FullSize(DoneSet(states), |torrent.pieces|);
    }

    method MarkVerified(index: nat)
      requires Valid()
      modifies this
      ensures Valid() && Model() == PieceSpec.MarkVerified(old(Model()), index)
    {
      MarkVerifiedInv(torrent, Model(), index);
      if index < |states| && !states[index].Done? {
        states := states[index := Done];
        doneCount := doneCount + 1;
      }
    }

    method InFlightCount(peer: Peer) returns (n: nat)
      ensures n == |Own(Model(), peer)|
    {
      n := if peer in inFlight then |inFlight[peer]| else 0;
    }

    // The first block of the piece that nobody was asked for.
    method FreeBlock(index: nat) returns (k: Option<nat>)
      requires Valid() && index < |states| && states[index].InProgress?
      ensures k.None? ==> forall j: nat :: !FreeAt(Model(), index, j)
      ensures k.Some? ==> FirstFree(Model(), index, k.value)
    {
      var prog := states[index].prog;
      var j := 0;
      while j < |prog.received|
        invariant 0 <= j <= |prog.received|
        invariant forall i: nat :: i < j ==> !FreeAt(Model(), index, i)
      {
        if !prog.received[j] && (index, BlockStart(j)) !in pending {
          return Some(j);
        }
        j := j + 1;
      }
      k := None;
    }

    // The first block of the piece that others were asked for but not `peer`.
    method DoubleBlock(peer: Peer, index: nat) returns (k: Option<nat>)
      requires Valid() && index < |states| && states[index].InProgress?
      ensures k.None? ==> forall j: nat :: !DoubleAt(Model(), peer, index, j)
      ensures k.Some? ==> FirstDouble(Model(), peer, index, k.value)
    {
      var prog := states[index].prog;
      var own := if peer in inFlight then inFlight[peer] else {};
      var j := 0;
      while j < |prog.received|
        invariant 0 <= j <= |prog.received|
        invariant forall i: nat :: i < j ==> !DoubleAt(Model(), peer, index, i)
      {
        var key := (index, BlockStart(j));
        if !prog.received[j] && key in pending && key !in own {
          return Some(j);
        }
        j := j + 1;
      }
      k := None;
    }

    // The least rarity wins; among equals, any candidate may.
    static method PickRarest(candidates: seq<(nat, nat)>) returns (piece: Option<nat>)
      ensures piece.None? <==> candidates == []
      ensures piece.Some? ==> IsRarest(candidates, piece.value)
    {
      if candidates == [] {
        return None;
      }
      var least := candidates[0].1;
      for i := 0 to |candidates|
        invariant exists c :: c in candidates && c.1 == least
        invariant forall j :: 0 <= j < i ==> least <= candidates[j].1
      {
        if candidates[i].1 < least {
          least := candidates[i].1;
        }
      }
      var chosen :| chosen in candidates && chosen.1 == least;
      piece := Some(chosen.0);
    }

    method PartialCandidates(bitfield: set<nat>) returns (candidates: seq<(nat, nat)>)
      requires Valid()
      ensures ListsPartial(torrent, Model(), bitfield, candidates)
    {
      candidates := [];
      for i := 0 to |states|
        invariant forall c :: c in candidates ==> Partial(torrent, Model(), bitfield, c.0) && c.1 == rarity[c.0]
        invariant forall j: nat :: j < i && Partial(torrent, Model(), bitfield, j) ==> (j, rarity[j]) in candidates
      {
        if i in bitfield && torrent.PieceLen(i) <= U32_MAX && states[i].InProgress? {
          var free := FreeBlock(i);
          if free.Some? {
            assert Partial(torrent, Model(), bitfield, i);
            candidates := candidates + [(i, rarity[i])];
          }
        }
      }
    }

    method PickPartial(bitfield: set<nat>) returns (req: Option<BlockRequest>)
      requires Valid()
      ensures req.None? <==> !AnyPartial(torrent, Model(), bitfield)
      ensures req.Some? ==> PartialPick(torrent, Model(), bitfield, req.value) && Aligned(req.value)
    {
      var candidates := PartialCandidates(bitfield);
      var piece := PickRarest(candidates);
      AnyIsListed(torrent, Model(), bitfield, candidates);
      if piece.None? {
        return None;
      }
      var i := piece.value;
      RarestIsPartial(torrent, Model(), bitfield, candidates, i);
      var k := FreeBlock(i);
      FreeIsFound(torrent, Model(), bitfield, i, k);
      req := Some(BlockRequest(i, BlockStart(k.value), BlockLen(torrent.PieceLen(i), k.value)));
    }

    ghost predicate Aligned(req: BlockRequest)
      reads this
      requires Valid()
    {
      && req.piece < |states|
      && req.begin == BlockStart(BlockIndex(req.begin))
      && req.length == BlockLen(torrent.PieceLen(req.piece), BlockIndex(req.begin))
    }

    // Starts the piece that it picks.
    method PickNew(bitfield: set<nat>) returns (req: Option<BlockRequest>)
      requires Valid()
      modifies this
      ensures req.None? <==> !old(AnyNew(torrent, Model(), bitfield))
      ensures req.None? ==> Model() == old(Model())
      ensures req.Some? ==> old(NewPick(torrent, Model(), bitfield, req.value)) && old(Aligned(req.value))
      ensures req.Some? ==> Model() == old(Model()).(states := old(states)[req.value.piece := InProgress(Empty(BlockCount(torrent.PieceLen(req.value.piece))))])
    {
      var candidates: seq<(nat, nat)> := [];
      for i := 0 to |states|
        invariant Model() == old(Model())
        invariant forall c :: c in candidates ==> New(torrent, Model(), bitfield, c.0) && c.1 == rarity[c.0]
        invariant forall j: nat :: j < i && New(torrent, Model(), bitfield, j) ==> (j, rarity[j]) in candidates
      {
        if i in bitfield && torrent.PieceLen(i) <= U32_MAX && states[i].Missing? {
          candidates := candidates + [(i, rarity[i])];
        }
      }
      var piece := PickRarest(candidates);
      if piece.None? {
        return None;
      }
      var pieceLen := torrent.PieceLen(piece.value);
      req := Some(BlockRequest(piece.value, 0, BlockLen(pieceLen, 0)));
      states := states[piece.value := InProgress(Empty(BlockCount(pieceLen)))];
    }

    // At most one block of each piece is a candidate; any candidate may win.
    method PickEndgame(peer: Peer, bitfield: set<nat>) returns (req: Option<BlockRequest>)
      requires Valid()
      ensures req.None? <==> forall i: nat :: !Endgame(torrent, Model(), peer, bitfield, i)
      ensures req.Some? ==> EndgamePick(torrent, Model(), peer, bitfield, req.value) && Aligned(req.value)
    {
      var candidates: seq<(nat, nat)> := [];
      for i := 0 to |states|
        invariant forall n :: 0 <= n < |candidates| ==> IsDouble(peer, bitfield, candidates[n])
        invariant candidates == [] ==> forall j: nat :: j < i ==> !Endgame(torrent, Model(), peer, bitfield, j)
      {
        var k := None;
        if states[i].InProgress? && i in bitfield && torrent.PieceLen(i) <= U32_MAX {
          k := DoubleBlock(peer, i);
          if k.Some? {
            candidates := candidates + [(i, k.value)];
          }
        }
        assert k.None? ==> !Endgame(torrent, Model(), peer, bitfield, i);
      }
      if candidates == [] {
        return None;
      }
      var n: nat :| n < |candidates|;
      var (piece, k) := candidates[n];
      assert IsDouble(peer, bitfield, (piece, k)) && Endgame(torrent, Model(), peer, bitfield, piece);
      req := Some(BlockRequest(piece, BlockStart(k), BlockLen(torrent.PieceLen(piece), k)));
    }

    ghost predicate IsDouble(peer: Peer, bitfield: set<nat>, candidate: (nat, nat))
      reads this
      requires Valid()
    {
      Offered(torrent, Model(), bitfield, candidate.0) && FirstDouble(Model(), peer, candidate.0, candidate.1)
    }

    method NextBlockRequest(peer: Peer, bitfield: set<nat>) returns (req: Option<BlockRequest>)
      requires Valid()
      modifies this
      ensures Valid()
      ensures req.None? ==> Model() == old(Model()) && NoPick(torrent, old(Model()), peer, bitfield)
      ensures req.Some? ==> LegalPick(torrent, old(Model()), peer, bitfield, req.value)
                            && Model() == ApplyPick(torrent, old(Model()), peer, req.value)
    {
      req := PickPartial(bitfield);
      if req.None? {
        req := PickNew(bitfield);
        if req.None? {
          req := PickEndgame(peer, bitfield);
          if req.None? {
            return;
          }
        }
      }
      assert LegalPick(torrent, old(Model()), peer, bitfield, req.value);
      ApplyPickInv(torrent, old(Model()), peer, bitfield, req.value);
      inFlight := inFlight[peer := (if peer in inFlight then inFlight[peer] else {}) + {req.value.Key()}];
      pending := pending + {req.value.Key()};
    }

    method CancelTargets(req: BlockRequest, except: Peer) returns (targets: set<Peer>)
      ensures targets == PieceSpec.CancelTargets(Model(), req.Key(), except)
    {
      targets := set p | p in inFlight && p != except && req.Key() in inFlight[p];
    }
  }
}
