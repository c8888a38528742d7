/** The hub as the engine runs it: the one owner of the piece manager, the
    choke manager, the links to the peers and the channel to the disk writer. */
module Hubs {
  import opened Wrappers
  import opened Bytes
  import opened FiniteSets
  import opened PieceSpec
  import opened PieceTheorems
  import opened PieceManagement
  import opened Choking
  import opened HubSpec
  import opened HubInvariant

  class Hub {
    const torrent: Torrent
    const seed: bool
    const pm: PieceManager
    const chokes: ChokeManager
    var peers: map<Peer, Link>
    var onDisk: set<nat>
    var pendingWrites: nat
    var phase: Phase
    var paused: bool
    var toDisk: seq<DiskCommand>

    ghost function Model(): HubState
      reads this, pm, chokes
    {
      HubState(pm.Model(), peers, onDisk, pendingWrites, phase, paused, chokes.Model(), toDisk)
    }

    ghost predicate Valid()
      reads this, pm, chokes
    {
      pm.torrent == torrent && chokes.maxUnchoked == MAX_UNCHOKED && HubInv(torrent, Model())
    }

    constructor (t: Torrent, seeding: bool)
      requires t.WF()
      ensures Valid() && fresh(pm) && fresh(chokes)
      ensures torrent == t && seed == seeding && Model() == InitialHub(t)
    {
      torrent, seed := t, seeding;
      pm := new PieceManager(t);
      chokes := new ChokeManager(MAX_UNCHOKED);
      peers, onDisk, pendingWrites := map[], {}, 0;
      phase, paused, toDisk := Recheck, false, [];
      new;
      InitialHubInv(t);
    }

    method Tell(peer: Peer, cmd: PeerCommand)
      modifies this`peers
      ensures peers == Say(old(peers), peer, cmd)
    {
      if peer in peers {
        peers := peers[peer := peers[peer].(sent := peers[peer].sent + [cmd])];
      }
    }

    method TellAll(targets: set<Peer>, cmd: PeerCommand)
      modifies this`peers
      ensures peers == SayAll(old(peers), targets, cmd)
    {
      var left := targets;
      while left != {}
        invariant left <= targets
        invariant peers == SayAll(old(peers), targets - left, cmd)
        decreases left
      {
        var other :| other in left;
        Tell(other, cmd);
        left := left - {other};
      }
    }

    // Asks the peer for one more block, and tells the others who were asked
    // for it that it need not come.
    method RequestOne(peer: Peer) returns (req: Option<BlockRequest>)
      requires Valid() && peer in peers && peers[peer].unchoked && |Own(pm.Model(), peer)| < PIPELINE
      modifies this`peers, pm
      ensures Valid() && peer in peers && peers[peer].(sent := []) == old(peers)[peer].(sent := [])
      ensures req.None? ==> Model() == old(Model()) && NoPick(torrent, pm.Model(), peer, peers[peer].bitfield)
      ensures req.Some? ==> LegalPick(torrent, old(pm.Model()), peer, old(peers)[peer].bitfield, req.value)
                            && Model() == SendRequest(torrent, old(Model()), peer, req.value)
                            && Measure(torrent, pm.Model(), peer, peers[peer].bitfield) < Measure(torrent, old(pm.Model()), peer, old(peers)[peer].bitfield)
    {
      ghost var h := Model();
      var bitfield := peers[peer].bitfield;
      req := pm.NextBlockRequest(peer, bitfield);
      if req.Some? {
        SendRequestKeeps(torrent, h, peer, req.value);
        PickDecreases(torrent, h.pm, peer, bitfield, req.value);
        var others := pm.CancelTargets(req.value, peer);
        TellAll(others, CancelMsg(req.value));
        Tell(peer, RequestMsg(req.value));
        assert Model() == SendRequest(torrent, h, peer, req.value);
      }
    }

    // Asks the peer for blocks while it has slots and there are blocks.
    method Refill(peer: Peer)
      requires Valid()
      modifies this`peers, pm
      ensures Valid() && Refilled(torrent, old(Model()), peer, Model())
    {
      if paused || peer !in peers || !peers[peer].unchoked {
        return;
      }
      ghost var h0, bitfield := Model(), peers[peer].bitfield;
      ghost var picks: seq<BlockRequest> := [];
      var slots := pm.InFlightCount(peer);
      while slots < PIPELINE
        invariant Valid() && peer in peers && peers[peer].unchoked && peers[peer].bitfield == bitfield
        invariant slots == |Own(pm.Model(), peer)|
        invariant Requests(torrent, h0, peer, picks) == Some(Model())
        decreases Measure(torrent, pm.Model(), peer, bitfield)
      {
        ghost var mid := Model();
        var request := RequestOne(peer);
        if request.None? {
          break;
        }
        OneMoreRequest(torrent, h0, peer, picks, mid, request.value);
        picks := picks + [request.value];
        slots := pm.InFlightCount(peer);
      }
    }

    method GreetAndRefill(peer: Peer, greeting: seq<PeerCommand>)
      requires Valid() && NoPieces(greeting)
      modifies this`peers, pm
      ensures Valid() && Refilled(torrent, Greet(old(Model()), peer, greeting), peer, Model())
      ensures Inv(torrent, Greet(old(Model()), peer, greeting).pm)
    {
      GreetKeeps(torrent, Model(), peer, greeting);
      if peer in peers {
        peers := peers[peer := peers[peer].(sent := peers[peer].sent + greeting)];
      }
      Refill(peer);
    }

    // Greets and refills every peer, in the order the hash map happens to have.
    method RefillAll(greeting: seq<PeerCommand>)
      requires Valid() && NoPieces(greeting)
      modifies this`peers, pm
      ensures Valid()
      ensures exists order :: IsOrderOf(order, old(peers).Keys) && RefilledAll(torrent, old(Model()), order, greeting, Model())
    {
      ghost var h0 := Model();
      var left := peers.Keys;
      ghost var order: seq<Peer> := [];
      while left != {}
        invariant Valid() && left <= h0.peers.Keys
        invariant IsOrderOf(order, h0.peers.Keys - left)
        invariant RefilledAll(torrent, h0, order, greeting, Model())
        decreases left
      {
        ghost var mid := Model();
        var peer :| peer in left;
        GreetAndRefill(peer, greeting);
        OneMoreRefilled(torrent, h0, order, greeting, mid, peer, Model());
        OrderAppended(order, h0.peers.Keys, left, peer);
        order := order + [peer];
        left := left - {peer};
      }
      assert h0.peers.Keys - left == h0.peers.Keys;
    }

    method OnPeerConnected(peer: Peer, outbound: bool)
      requires Valid()
      modifies this`peers
      ensures Valid() && Model() == Connected(torrent, old(Model()), peer, outbound)
    {
      ConnectedKeeps(torrent, Model(), peer, outbound);
      var complete := pm.IsComplete();
      var greeting: seq<PeerCommand> := [];
      if phase != Recheck && onDisk != {} {
        greeting := [Send(Message.Bitfield(onDisk))];
      }
      greeting := greeting + if outbound && !complete then [Send(Interested)] else [];
      peers := peers[peer := Link({}, false, false, true, greeting)];
    }

    // `bf` is None for a bitfield of the wrong length or with padding bits set.
    method OnPeerBitfield(peer: Peer, bf: Option<set<nat>>)
      requires Valid() && (bf.Some? ==> bf.value <= Below(|torrent.pieces|))
      modifies this`peers, pm
      ensures Valid() && OnBitfield(torrent, old(Model()), peer, bf, Model())
    {
      if bf.None? {
        Tell(peer, Disconnect);
        return;
      }
      pm.OnPeerBitfield(peer, bf.value);
      if peer in peers {
        peers := peers[peer := peers[peer].(bitfield := bf.value)];
      }
      Refill(peer);
    }

    method OnPeerHave(peer: Peer, index: nat)
      requires Valid()
      modifies this`peers, pm
      ensures Valid() && Model() == OnHave(torrent, old(Model()), peer, index)
    {
      HaveKeeps(torrent, Model(), peer, index);
      pm.OnPeerHave(peer, index);
      if peer in peers && index < |torrent.pieces| {
        peers := peers[peer := peers[peer].(bitfield := peers[peer].bitfield + {index})];
      }
    }

    method OnPeerChoke(peer: Peer)
      requires Valid()
      modifies this`peers, pm
      ensures Valid() && Model() == OnChoke(old(Model()), peer) && Own(pm.Model(), peer) == {}
    {
      ChokeKeeps(torrent, Model(), peer);
      if peer in peers {
        peers := peers[peer := peers[peer].(unchoked := false)];
      }
      pm.ReleaseInFlight(peer);
    }

    method OnPeerUnchoke(peer: Peer)
      requires Valid()
      modifies this`peers, pm
      ensures Valid() && OnUnchoke(torrent, old(Model()), peer, Model())
    {
      if peer in peers {
        peers := peers[peer := peers[peer].(unchoked := true)];
      }
      Refill(peer);
    }

    method ListInterested() returns (interested: seq<Peer>)
      ensures IsOrderOf(interested, InterestedPeers(peers))
    {
      interested := [];
      var left := peers.Keys;
      while left != {}
        invariant left <= peers.Keys && SetOf(interested) == InterestedPeers(peers) - left && Distinct(interested)
        decreases left
      {
        var peer :| peer in left;
        assert peer !in SetOf(interested);
        if peers[peer].interested {
          DistinctAppended(interested, peer);
          interested := interested + [peer];
        }
        left := left - {peer};
      }
    }

    method RecomputeChokes()
      requires Valid()
      modifies this`peers, chokes
      ensures Valid() && Rechoked(old(Model()), Model())
    {
      var interested := ListInterested();
      RechokeKeeps(torrent, Model(), interested);
      ghost var h := Model();
      var decision := chokes.Recompute(interested);
      peers := map p | p in peers ::
        var link := peers[p];
        if p in decision.unchoke then link.(ourChoke := false, sent := link.sent + [Send(Unchoke)])
        else if p in decision.choke then link.(ourChoke := true, sent := link.sent + [Send(Choke)])
        else link;
      assert Model() == Rechoke(h, interested);
    }

    method OnPeerInterest(peer: Peer, interested: bool)
      requires Valid()
      modifies this`peers, chokes
      ensures Valid() && OnInterest(old(Model()), peer, interested, Model())
    {
      if peer in peers {
        peers := peers[peer := peers[peer].(interested := interested)];
      }
      RecomputeChokes();
    }

    method OnRequest(peer: Peer, index: nat, begin: nat, length: nat)
      requires Valid()
      modifies this`peers, this`toDisk
      ensures Valid() && Model() == OnUploadRequest(torrent, old(Model()), peer, index, begin, length)
    {
      if paused {
        return;
      }
      if peer !in peers {
        return;
      }
      if !peers[peer].interested || peers[peer].ourChoke {
        return;
      }
      if length == 0 || length > MAX_SERVE_BLOCK || |torrent.pieces| <= index || begin + length > torrent.PieceLen(index) {
        Tell(peer, Disconnect);
        return;
      }
      if index !in onDisk {
        return;
      }
      toDisk := toDisk + [ReadBlock(peer, index, begin, length)];
    }

    method OnPeerBlock(peer: Peer, index: nat, begin: nat, data: seq<u8>)
      requires Valid()
      modifies this`peers, this`pendingWrites, this`toDisk, pm
      ensures Valid() && OnBlockEvent(torrent, old(Model()), peer, index, begin, data, Model())
    {
      BlockTakenKeeps(torrent, Model(), peer, index, begin, data);
      ghost var h := Model();
      var ev := pm.OnBlockReceived(peer, index, begin, data);
      if ev.Err? {
        Tell(peer, Disconnect);
        return;
      }
      QueueWrite(ev.value);
      assert Model() == AfterBlock(h, pm.Model(), ev.value);
      Refill(peer);
    }

    // A finished piece goes to the disk writer.
    method QueueWrite(ev: PieceEvent)
      requires Valid()
      modifies this`pendingWrites, this`toDisk
      ensures Valid() && Model() == AfterBlock(old(Model()), pm.Model(), ev)
    {
      if ev.PieceCompleted? {
        pendingWrites := pendingWrites + 1;
        toDisk := toDisk + [WritePiece(ev.index, ev.data)];
      }
    }

    method OnPeerDisconnected(peer: Peer)
      requires Valid()
      modifies this`peers, pm
      ensures Valid() && Model() == OnDisconnected(old(Model()), peer)
    {
      DisconnectedKeeps(torrent, Model(), peer);
      pm.OnPeerDisconnected(peer);
      peers := peers - {peer};
    }

    // True when the download is complete.
    method OnDiskWritten(index: nat) returns (complete: bool)
      requires Valid() && 0 < pendingWrites
      modifies this`onDisk, this`pendingWrites
      ensures Valid() && Model() == OnWritten(old(Model()), index) && complete == AllWritten(torrent, Model())
    {
      pendingWrites := pendingWrites - 1;
      onDisk := onDisk + {index};
      complete := pm.IsComplete();
      complete := complete && pendingWrites == 0;
    }

    method OnBlockRead(peer: Peer, index: nat, begin: nat, data: seq<u8>)
      requires Valid()
      modifies this`peers
      ensures Valid() && Model() == OnUpload(old(Model()), peer, index, begin, data)
    {
      UploadKeeps(torrent, Model(), peer, index, begin, data);
      Tell(peer, Send(Piece(index, begin, data)));
    }

    method OnPieceChecked(index: nat, verified: bool)
      requires Valid() && index < |torrent.pieces|
      modifies this`onDisk, pm
      ensures Valid() && Model() == OnRecheck(old(Model()), index, verified)
    {
      RecheckKeeps(torrent, Model(), index, verified);
      if verified {
        pm.MarkVerified(index);
        onDisk := onDisk + {index};
      }
    }

    // True when the session has nothing left to do.
    method OnAllChecked() returns (over: bool)
      requires Valid()
      modifies this`peers, this`phase, pm
      ensures Valid() && OnRecheckDone(torrent, old(Model()), Model()) && over == (phase == Seed && !seed)
    {
      var complete := pm.IsComplete();
      phase := if complete then Seed else Download;
      var greeting: seq<PeerCommand> := if onDisk == {} then [] else [Send(Message.Bitfield(onDisk))];
      greeting := greeting + if complete then [] else [Send(Interested)];
      ghost var h1 := Model();
      RefillAll(greeting);
      ghost var order :| IsOrderOf(order, h1.peers.Keys) && RefilledAll(torrent, h1, order, greeting, Model());
      RefilledAllKeeps(torrent, h1, order, greeting, Model());
      over := phase == Seed && !seed;
    }

    method OnResumed()
      requires Valid()
      modifies this`peers, this`paused, pm
      ensures Valid() && OnResume(torrent, old(Model()), Model())
    {
      paused := false;
      RefillAll([]);
    }
  }
}
