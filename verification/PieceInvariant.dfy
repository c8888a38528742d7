/** Every operation of the piece manager keeps the invariant. */
module PieceInvariant {
  import opened Bytes
  import opened FiniteSets
  import opened PieceSpec

  lemma EmptyProgress(t: Torrent, i: nat)
    requires t.WF() && i < |t.pieces|
    ensures ProgressInv(t, i, Empty(BlockCount(t.PieceLen(i))))
  {
  }

  lemma InitialInv(t: Torrent)
    requires t.WF()
    ensures Inv(t, Initial(t)) && Exact(Initial(t)) && RarityExact(Initial(t))
  {
  }

  lemma HoldersReplaced(peerPieces: map<Peer, set<nat>>, peer: Peer, bf: set<nat>, i: nat)
    ensures var was, now := |Holders(peerPieces, i)|, |Holders(peerPieces[peer := bf], i)|;
            now == was + (if i in bf then 1 else 0) - (if peer in peerPieces && i in peerPieces[peer] then 1 else 0)
  {
    var others := Holders(peerPieces, i) - {peer};
    assert Holders(peerPieces[peer := bf], i) == if i in bf then others + {peer} else others;
    assert Holders(peerPieces, i) == if peer in peerPieces && i in peerPieces[peer] then others + {peer} else others;
  }

  // The manager adds a bitfield to the counters without taking off an earlier
  // one of the same peer. So the counters stay right exactly if no piece of the
  // peer was known before.
  lemma PeerBitfieldInv(t: Torrent, s: State, peer: Peer, bf: set<nat>)
    requires Inv(t, s) && bf <= Below(|t.pieces|)
    ensures Inv(t, OnPeerBitfield(s, peer, bf))
    ensures RarityExact(s) ==> (RarityExact(OnPeerBitfield(s, peer, bf)) <==> Unmapped(s, peer))
  {
    if RarityExact(s) {
      RarityIffUnmapped(t, s, peer, bf);
    }
  }

  lemma RarityIffUnmapped(t: Torrent, s: State, peer: Peer, bf: set<nat>)
    requires Inv(t, s) && RarityExact(s)
    ensures RarityExact(OnPeerBitfield(s, peer, bf)) <==> Unmapped(s, peer)
  {
    var s' := OnPeerBitfield(s, peer, bf);
    forall i: nat | i < |s.rarity|
      ensures s'.rarity[i] == |Holders(s'.peerPieces, i)| <==> !(peer in s.peerPieces && i in s.peerPieces[peer])
    {
      HoldersReplaced(s.peerPieces, peer, bf, i);
    }
    if !Unmapped(s, peer) {
      var i :| i in s.peerPieces[peer];
      assert i < |s.rarity| && s'.rarity[i] != |Holders(s'.peerPieces, i)|;
    }
  }

  lemma HoldersAdd(peerPieces: map<Peer, set<nat>>, peer: Peer, index: nat, i: nat)
    requires peer in peerPieces && index !in peerPieces[peer]
    ensures |Holders(peerPieces[peer := peerPieces[peer] + {index}], i)| == |Holders(peerPieces, i)| + if i == index then 1 else 0
  {
    var was := Holders(peerPieces, i);
    assert Holders(peerPieces[peer := peerPieces[peer] + {index}], i) == if i == index then was + {peer} else was;
  }

  lemma PeerHaveInv(t: Torrent, s: State, peer: Peer, index: nat)
    requires Inv(t, s)
    ensures Inv(t, OnPeerHave(s, peer, index))
    ensures RarityExact(s) ==> RarityExact(OnPeerHave(s, peer, index))
  {
    var s' := OnPeerHave(s, peer, index);
    if s' != s && RarityExact(s) {
      forall i: nat | i < |s.rarity| ensures s'.rarity[i] == |Holders(s'.peerPieces, i)| {
        HoldersAdd(s.peerPieces, peer, index, i);
      }
    }
  }

  lemma ForgetPiecesInv(t: Torrent, s: State, peer: Peer)
    requires Inv(t, s)
    ensures Inv(t, ForgetPieces(s, peer))
    ensures RarityExact(s) ==> RarityExact(ForgetPieces(s, peer))
    ensures peer !in ForgetPieces(s, peer).peerPieces
  {
    var s' := ForgetPieces(s, peer);
    if peer in s.peerPieces && RarityExact(s) {
      forall i: nat | i < |s.rarity| ensures s'.rarity[i] == |Holders(s'.peerPieces, i)| {
        var was := Holders(s.peerPieces, i);
        assert Holders(s'.peerPieces, i) == was - {peer};
        assert i in s.peerPieces[peer] <==> peer in was;
      }
    }
  }

  lemma ReleaseInv(t: Torrent, s: State, peer: Peer)
    requires Inv(t, s)
    ensures Inv(t, Release(s, peer)) && Own(Release(s, peer), peer) == {}
    ensures Exact(s) ==> Exact(Release(s, peer))
  {
    var s' := Release(s, peer);
    forall key | key in s'.pending ensures exists p :: p in s'.inFlight && key in s'.inFlight[p] {
      var p :| p in s.inFlight && key in s.inFlight[p];
      assert p in s'.inFlight && key in s'.inFlight[p];
    }
  }

  lemma PeerDisconnectedInv(t: Torrent, s: State, peer: Peer)
    requires Inv(t, s)
    ensures var s' := OnPeerDisconnected(s, peer);
            && Inv(t, s') && peer !in s'.peerPieces && peer !in s'.inFlight
            && (Exact(s) ==> Exact(s')) && (RarityExact(s) ==> RarityExact(s'))
  {
    ForgetPiecesInv(t, s, peer);
    var f := ForgetPieces(s, peer);
    ReleaseInv(t, f, peer);
    var r := Release(f, peer);
    var s' := OnPeerDisconnected(s, peer);
    forall key | key in s'.pending ensures exists p :: p in s'.inFlight && key in s'.inFlight[p] {
      var p :| p in r.inFlight && key in r.inFlight[p];
      assert p in s'.inFlight && key in s'.inFlight[p];
    }
    assert Flight(t, s');
  }

  // Nobody else has this block on request, and nobody counts on it.
  predicate Due(s: State, peer: Peer, key: Key) {
    key in Own(s, peer) || key !in s.pending
  }

  lemma DropExactIff(t: Torrent, s: State, peer: Peer, key: Key)
    requires Shape(t, s) && Flight(t, s) && Exact(s)
    ensures Exact(DropRequest(s, peer, key)) <==> Due(s, peer, key)
  {
    var s' := DropRequest(s, peer, key);
    if !Due(s, peer, key) {
      var p :| p in s.inFlight && key in s.inFlight[p];
      assert p in s'.inFlight && key in s'.inFlight[p] && key !in s'.pending;
    }
  }

  lemma DropRequestInv(t: Torrent, s: State, peer: Peer, key: Key)
    requires Inv(t, s)
    ensures Inv(t, DropRequest(s, peer, key))
    ensures Exact(s) ==> (Exact(DropRequest(s, peer, key)) <==> Due(s, peer, key))
  {
    if Exact(s) {
      DropExactIff(t, s, peer, key);
    }
    var s' := DropRequest(s, peer, key);
    forall k | k in s'.pending ensures exists p :: p in s'.inFlight && k in s'.inFlight[p] {
      var p :| p in s.inFlight && k in s.inFlight[p];
      assert p in s'.inFlight && k in s'.inFlight[p];
    }
  }

  lemma DoneSetUpdate(states: seq<PieceState>, i: nat, st: PieceState)
    requires i < |states|
    ensures DoneSet(states[i := st]) == if st.Done? then DoneSet(states) + {i} else DoneSet(states) - {i}
  {
  }

  // A piece that is not Missing takes a new state that is not Missing either.
  lemma SetStateInv(t: Torrent, s: State, i: nat, st: PieceState)
    requires Inv(t, s) && i < |s.states| && !s.states[i].Done? && !st.Missing?
    requires st.InProgress? ==> ProgressInv(t, i, st.prog)
    ensures var s' := s.(states := s.states[i := st], doneCount := if st.Done? then s.doneCount + 1 else s.doneCount);
            Inv(t, s') && (Exact(s') <==> Exact(s))
  {
    var s' := s.(states := s.states[i := st], doneCount := if st.Done? then s.doneCount + 1 else s.doneCount);
    DoneSetUpdate(s.states, i, st);
    forall p, key | p in s'.inFlight && key in s'.inFlight[p] ensures KeyInv(t, s'.states, key) {
      assert KeyInv(t, s.states, key);
    }
  }

  lemma ReceivedAll(prog: Progress)
    ensures |Received(prog)| <= |prog.received|
    ensures |Received(prog)| == |prog.received| <==> forall k :: 0 <= k < |prog.received| ==> prog.received[k]
  {
    FullSize(Received(prog), |prog.received|);
    if forall k :: 0 <= k < |prog.received| ==> prog.received[k] {
      assert Received(prog) == Below(|prog.received|);
    }
    assert forall k: nat :: k < |prog.received| && !prog.received[k] ==> k in Below(|prog.received|) && k !in Received(prog);
  }

  lemma StoreInv(t: Torrent, i: nat, prog: Progress, begin: nat, data: seq<u8>)
    requires t.WF() && i < |t.pieces| && ProgressInv(t, i, prog)
    requires 0 < |data| && begin + |data| <= t.PieceLen(i)
    requires !prog.received[BlockIndex(begin)]
    ensures var p' := Store(t, i, prog, begin, data);
            && Received(p') == Received(prog) + {BlockIndex(begin)}
            && p'.receivedCount == |Received(p')| <= |p'.received| == |prog.received|
            && |p'.data.value| == t.PieceLen(i)
            && var (st, ev) := Settle(t, i, p');
               !st.Missing? && (st.InProgress? ==> ProgressInv(t, i, st.prog))
  {
  }

  lemma OnBlockInv(t: Torrent, s: State, peer: Peer, index: nat, begin: nat, data: seq<u8>)
    requires Inv(t, s)
    ensures var (s', ev) := OnBlock(t, s, peer, index, begin, data);
            && Inv(t, s')
            && (Exact(s) ==> (Exact(s') <==> Due(s, peer, (index, begin))))
            && s'.inFlight == DropRequest(s, peer, (index, begin)).inFlight && s'.peerPieces == s.peerPieces
  {
    var s1 := DropRequest(s, peer, (index, begin));
    var s' := OnBlock(t, s, peer, index, begin, data).0;
    DropRequestInv(t, s, peer, (index, begin));
    if s' != s1 {
      StoreInv(t, index, s.states[index].prog, begin, data);
      SetStateInv(t, s1, index, s'.states[index]);
    }
  }

  lemma MarkVerifiedInv(t: Torrent, s: State, index: nat)
    requires Inv(t, s)
    ensures Inv(t, MarkVerified(s, index)) && (Exact(s) ==> Exact(MarkVerified(s, index)))
  {
    if index < |s.states| && !s.states[index].Done? {
      SetStateInv(t, s, index, Done);
    }
  }

  // A legal pick is a block still wanted, from a piece the peer has.
  lemma PickIsWanted(t: Torrent, s: State, peer: Peer, bf: set<nat>, req: BlockRequest)
    requires Inv(t, s) && LegalPick(t, s, peer, bf, req)
    ensures req.piece in bf && Wanted(t, s, req.piece, BlockIndex(req.begin))
    ensures 0 < req.length && req.begin + req.length <= t.PieceLen(req.piece)
  {
  }

  // A block is requested twice only when nothing else is left, and never
  // twice from one peer.
  lemma PickIsDouble(t: Torrent, s: State, peer: Peer, bf: set<nat>, req: BlockRequest)
    requires Inv(t, s) && LegalPick(t, s, peer, bf, req)
    ensures req.Key() in s.pending <==> !AnyPartial(t, s, bf) && !AnyNew(t, s, bf)
    ensures req.Key() in s.pending ==> req.Key() !in Own(s, peer)
  {
    var key := (req.piece, BlockStart(BlockIndex(req.begin)));
    assert req.Key() == key;
    if AnyPartial(t, s, bf) {
      assert FreeAt(s, req.piece, BlockIndex(req.begin));
    } else if AnyNew(t, s, bf) {
      assert s.states[req.piece].Missing?;
      assert forall p :: p in s.inFlight && key in s.inFlight[p] ==> KeyInv(t, s.states, key);
      assert key !in s.pending;
    } else {
      assert DoubleAt(s, peer, req.piece, BlockIndex(req.begin));
    }
  }

  function AddRequest(s: State, peer: Peer, key: Key): State {
    s.(inFlight := s.inFlight[peer := Own(s, peer) + {key}], pending := s.pending + {key})
  }

  lemma AddExactIff(t: Torrent, s: State, peer: Peer, key: Key)
    requires Shape(t, s) && Flight(t, s) && Exact(s)
    ensures Exact(AddRequest(s, peer, key)) <==> Due(s, peer, key)
  {
    var s' := AddRequest(s, peer, key);
    if !Due(s, peer, key) {
      var p :| p in s.inFlight && key in s.inFlight[p];
      assert p in s'.inFlight && key in s'.inFlight[p] && key in s'.inFlight[peer];
    }
  }

  lemma AddRequestInv(t: Torrent, s: State, peer: Peer, key: Key)
    requires Inv(t, s) && KeyInv(t, s.states, key)
    ensures Inv(t, AddRequest(s, peer, key))
  {
    var s' := AddRequest(s, peer, key);
    forall k | k in s'.pending ensures exists p :: p in s'.inFlight && k in s'.inFlight[p] {
      if k == key {
        assert peer in s'.inFlight && k in s'.inFlight[peer];
      } else {
        var p :| p in s.inFlight && k in s.inFlight[p];
        assert p in s'.inFlight && k in s'.inFlight[p];
      }
    }
  }

  lemma ApplyPickInv(t: Torrent, s: State, peer: Peer, bf: set<nat>, req: BlockRequest)
    requires Inv(t, s) && LegalPick(t, s, peer, bf, req)
    ensures Inv(t, ApplyPick(t, s, peer, req))
    ensures Exact(s) ==> (Exact(ApplyPick(t, s, peer, req)) <==> req.Key() !in s.pending)
    ensures DoneSet(ApplyPick(t, s, peer, req).states) == DoneSet(s.states)
  {
    PickIsWanted(t, s, peer, bf, req);
    var s1 := s.(states := ApplyPick(t, s, peer, req).states);
    if s.states[req.piece].Missing? {
      EmptyProgress(t, req.piece);
      SetStateInv(t, s, req.piece, s1.states[req.piece]);
    }
    assert DoneSet(s1.states) == DoneSet(s.states);
    AddRequestInv(t, s1, peer, req.Key());
    if Exact(s) {
      PickIsDouble(t, s, peer, bf, req);
      AddExactIff(t, s1, peer, req.Key());
    }
  }
}
