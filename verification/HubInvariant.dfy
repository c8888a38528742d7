/** What every handler of the hub keeps. */
module HubInvariant {
  import opened Wrappers
  import opened Bytes
  import opened FiniteSets
  import opened PieceSpec
  import opened PieceInvariant
  import opened ChokeSpec
  import opened HubSpec

  // At most five blocks are on request from a peer.
  ghost predicate FlightBound(h: HubState) {
    forall p :: p in h.pm.inFlight ==> |h.pm.inFlight[p]| <= PIPELINE
  }

  // None is on request from a peer that chokes us or is gone.
  ghost predicate Polite(h: HubState) {
    forall p :: p in h.pm.inFlight && h.pm.inFlight[p] != {} ==> p in h.peers && h.peers[p].unchoked
  }

  // Whoever may download from us is in the choke manager's set of at most four.
  ghost predicate ChokeBound(h: HubState) {
    && |h.chokes.unchoked| <= MAX_UNCHOKED
    && forall p :: p in h.peers && !h.peers[p].ourChoke ==> p in h.chokes.unchoked
  }

  ghost predicate HubInv(t: Torrent, h: HubState) {
    && Inv(t, h.pm)
    && FlightBound(h)
    && ChokeBound(h)
  }

  lemma InitialHubInv(t: Torrent)
    requires t.WF()
    ensures HubInv(t, InitialHub(t)) && Polite(InitialHub(t))
  {
  }

  // The number of peers that we let download is at most four.
  ghost function Served(h: HubState): set<Peer> {
    set p | p in h.peers && !h.peers[p].ourChoke
  }

  lemma AtMostFourServed(h: HubState)
    requires ChokeBound(h)
    ensures Served(h) <= h.chokes.unchoked && |Served(h)| <= 4
  {
    SubsetSize(Served(h), h.chokes.unchoked);
  }

  ghost function PiecesSent(sent: seq<PeerCommand>): set<Message> {
    set c | c in sent && c.Send? && c.msg.Piece? :: c.msg
  }

  // The same peers, and no block sent to any of them.
  ghost predicate NothingServed(h: HubState, h': HubState) {
    && h'.peers.Keys == h.peers.Keys
    && forall p :: p in h.peers ==> PiecesSent(h'.peers[p].sent) == PiecesSent(h.peers[p].sent)
  }

  ghost predicate SameLink(a: Link, b: Link) {
    && b.(sent := []) == a.(sent := [])
    && PiecesSent(b.sent) == PiecesSent(a.sent)
  }

  // The hub asked for blocks and did nothing else.
  ghost predicate OnlyRequests(h: HubState, h': HubState) {
    && h' == h.(pm := h'.pm, peers := h'.peers)
    && h'.pm.doneCount == h.pm.doneCount
    && DoneSet(h'.pm.states) == DoneSet(h.pm.states)
    && h'.pm.peerPieces == h.pm.peerPieces
    && h'.peers.Keys == h.peers.Keys
    && (forall p :: p in h.peers ==> SameLink(h.peers[p], h'.peers[p]))
    && (Polite(h) ==> Polite(h'))
  }

  lemma SendMore(sent: seq<PeerCommand>, more: seq<PeerCommand>)
    requires forall c :: c in more ==> !(c.Send? && c.msg.Piece?)
    ensures PiecesSent(sent + more) == PiecesSent(sent)
  {
  }

  lemma SendRequestKeeps(t: Torrent, h: HubState, peer: Peer, req: BlockRequest)
    requires HubInv(t, h) && peer in h.peers && h.peers[peer].unchoked
    requires |Own(h.pm, peer)| < PIPELINE && LegalPick(t, h.pm, peer, h.peers[peer].bitfield, req)
    ensures HubInv(t, SendRequest(t, h, peer, req)) && OnlyRequests(h, SendRequest(t, h, peer, req))
  {
    ApplyPickInv(t, h.pm, peer, h.peers[peer].bitfield, req);
    RequestTold(t, h, peer, req);
  }

  lemma RequestTold(t: Torrent, h: HubState, peer: Peer, req: BlockRequest)
    requires Shape(t, h.pm) && req.piece < |h.pm.states| && peer in h.peers
    ensures var h' := SendRequest(t, h, peer, req);
            h'.peers.Keys == h.peers.Keys && forall p :: p in h.peers ==> SameLink(h.peers[p], h'.peers[p])
  {
    var h' := SendRequest(t, h, peer, req);
    var told := SayAll(h.peers, CancelTargets(h'.pm, req.Key(), peer), CancelMsg(req));
    forall p | p in h.peers ensures SameLink(h.peers[p], h'.peers[p]) {
      SendMore(h.peers[p].sent, [CancelMsg(req)]);
      SendMore(told[p].sent, [RequestMsg(req)]);
    }
  }

  lemma OneMoreRequest(t: Torrent, h: HubState, peer: Peer, picks: seq<BlockRequest>, mid: HubState, req: BlockRequest)
    requires Inv(t, h.pm) && peer in h.peers && Requests(t, h, peer, picks) == Some(mid)
    requires |Own(mid.pm, peer)| < PIPELINE && LegalPick(t, mid.pm, peer, h.peers[peer].bitfield, req)
    ensures Requests(t, h, peer, picks + [req]) == Some(SendRequest(t, mid, peer, req))
  {
  }

  lemma {:induction false} RequestsKeep(t: Torrent, h: HubState, peer: Peer, picks: seq<BlockRequest>)
    requires HubInv(t, h) && peer in h.peers && h.peers[peer].unchoked
    requires Requests(t, h, peer, picks).Some?
    ensures var h' := Requests(t, h, peer, picks).value; HubInv(t, h') && OnlyRequests(h, h')
  {
    if picks != [] {
      var last := |picks| - 1;
      RequestsKeep(t, h, peer, picks[..last]);
      var mid := Requests(t, h, peer, picks[..last]).value;
      SendRequestKeeps(t, mid, peer, picks[last]);
    }
  }

  lemma RefilledKeeps(t: Torrent, h: HubState, peer: Peer, h': HubState)
    requires HubInv(t, h) && Refilled(t, h, peer, h')
    ensures HubInv(t, h') && OnlyRequests(h, h')
  {
    if CanRefill(h, peer) {
      var picks :| Requests(t, h, peer, picks) == Some(h');
      RequestsKeep(t, h, peer, picks);
    }
  }

  ghost predicate NoPieces(cmds: seq<PeerCommand>) {
    forall c :: c in cmds ==> !(c.Send? && c.msg.Piece?)
  }

  lemma GreetKeeps(t: Torrent, h: HubState, peer: Peer, greeting: seq<PeerCommand>)
    requires HubInv(t, h) && NoPieces(greeting)
    ensures HubInv(t, Greet(h, peer, greeting)) && OnlyRequests(h, Greet(h, peer, greeting))
  {
  }

  lemma {:induction false} RefilledAllKeeps(t: Torrent, h: HubState, order: seq<Peer>, greeting: seq<PeerCommand>, h': HubState)
    requires HubInv(t, h) && NoPieces(greeting) && RefilledAll(t, h, order, greeting, h')
    ensures HubInv(t, h') && OnlyRequests(h, h')
  {
    if order != [] {
      var last := |order| - 1;
      var mid :| RefilledAll(t, h, order[..last], greeting, mid) && Inv(t, mid.pm)
                 && Refilled(t, Greet(mid, order[last], greeting), order[last], h');
      RefilledAllKeeps(t, h, order[..last], greeting, mid);
      GreetKeeps(t, mid, order[last], greeting);
      RefilledKeeps(t, Greet(mid, order[last], greeting), order[last], h');
    }
  }

  lemma OneMoreRefilled(t: Torrent, h: HubState, order: seq<Peer>, greeting: seq<PeerCommand>, mid: HubState, peer: Peer, h': HubState)
    requires Inv(t, h.pm) && Inv(t, mid.pm) && RefilledAll(t, h, order, greeting, mid)
    requires Refilled(t, Greet(mid, peer, greeting), peer, h')
    ensures RefilledAll(t, h, order + [peer], greeting, h')
  {
  }

  lemma OrderAppended<T>(order: seq<T>, all: set<T>, left: set<T>, x: T)
    requires IsOrderOf(order, all - left) && x in left && left <= all
    ensures IsOrderOf(order + [x], all - (left - {x}))
  {
    assert x !in SetOf(order);
    DistinctAppended(order, x);
  }

  lemma DistinctAppended<T>(q: seq<T>, x: T)
    requires Distinct(q) && x !in q
    ensures Distinct(q + [x]) && SetOf(q + [x]) == SetOf(q) + {x}
  {
  }

  // ---------- The handlers ----------

  // Nothing but a note about a peer, or that it no longer chokes us.
  lemma NoteKeeps(t: Torrent, h: HubState, peer: Peer, link: Link)
    requires HubInv(t, h) && peer in h.peers
    requires link.ourChoke == h.peers[peer].ourChoke && link.sent == h.peers[peer].sent
    requires h.peers[peer].unchoked ==> link.unchoked
    ensures var h' := h.(peers := h.peers[peer := link]);
            HubInv(t, h') && (Polite(h) ==> Polite(h')) && NothingServed(h, h')
  {
  }

  lemma DismissKeeps(t: Torrent, h: HubState, peer: Peer)
    requires HubInv(t, h)
    ensures var h' := h.(peers := Say(h.peers, peer, Disconnect));
            HubInv(t, h') && (Polite(h) ==> Polite(h')) && NothingServed(h, h')
  {
    if peer in h.peers {
      SendMore(h.peers[peer].sent, [Disconnect]);
    }
  }

  // A peer that connects while blocks are on request from it leaves requests at
  // a link that is choked.
  lemma ConnectedKeeps(t: Torrent, h: HubState, peer: Peer, outbound: bool)
    requires HubInv(t, h)
    ensures HubInv(t, Connected(t, h, peer, outbound))
    ensures Polite(h) ==> (Polite(Connected(t, h, peer, outbound)) <==> Own(h.pm, peer) == {})
    ensures PiecesSent(Connected(t, h, peer, outbound).peers[peer].sent) == {}
  {
  }

  lemma BitfieldKeeps(t: Torrent, h: HubState, peer: Peer, bf: Option<set<nat>>, h': HubState)
    requires HubInv(t, h) && (bf.Some? ==> bf.value <= Below(|t.pieces|))
    requires OnBitfield(t, h, peer, bf, h')
    ensures HubInv(t, h') && (Polite(h) ==> Polite(h'))
    ensures h' == h.(pm := h'.pm, peers := h'.peers) && DoneSet(h'.pm.states) == DoneSet(h.pm.states)
    ensures NothingServed(h, h')
  {
    match bf {
      case None => DismissKeeps(t, h, peer);
      case Some(bits) =>
        PeerBitfieldInv(t, h.pm, peer, bits);
        var h1 := h.(pm := OnPeerBitfield(h.pm, peer, bits));
        if peer in h.peers {
          NoteKeeps(t, h1, peer, h.peers[peer].(bitfield := bits));
          h1 := h1.(peers := h1.peers[peer := h.peers[peer].(bitfield := bits)]);
        }
        RefilledKeeps(t, h1, peer, h');
    }
  }

  lemma HaveKeeps(t: Torrent, h: HubState, peer: Peer, index: nat)
    requires HubInv(t, h)
    ensures HubInv(t, OnHave(t, h, peer, index)) && (Polite(h) ==> Polite(OnHave(t, h, peer, index)))
  {
    PeerHaveInv(t, h.pm, peer, index);
  }

  lemma ChokeKeeps(t: Torrent, h: HubState, peer: Peer)
    requires HubInv(t, h)
    ensures HubInv(t, OnChoke(h, peer)) && Own(OnChoke(h, peer).pm, peer) == {}
    ensures Polite(h) ==> Polite(OnChoke(h, peer))
  {
    ReleaseInv(t, h.pm, peer);
  }

  lemma UnchokeKeeps(t: Torrent, h: HubState, peer: Peer, h': HubState)
    requires HubInv(t, h) && OnUnchoke(t, h, peer, h')
    ensures HubInv(t, h') && (Polite(h) ==> Polite(h'))
    ensures h' == h.(pm := h'.pm, peers := h'.peers) && DoneSet(h'.pm.states) == DoneSet(h.pm.states)
    ensures NothingServed(h, h')
  {
    var h1 := h;
    if peer in h.peers {
      NoteKeeps(t, h, peer, h.peers[peer].(unchoked := true));
      h1 := h.(peers := h.peers[peer := h.peers[peer].(unchoked := true)]);
    }
    RefilledKeeps(t, h1, peer, h');
  }

  lemma RechokeBound(h: HubState, order: seq<Peer>)
    requires ChokeBound(h)
    ensures ChokeBound(Rechoke(h, order))
  {
    DiffIsExact(MAX_UNCHOKED, h.chokes, order);
  }

  lemma RechokeKeeps(t: Torrent, h: HubState, order: seq<Peer>)
    requires HubInv(t, h)
    ensures var h' := Rechoke(h, order);
            HubInv(t, h') && (Polite(h) ==> Polite(h')) && NothingServed(h, h')
  {
    RechokeBound(h, order);
    var h' := Rechoke(h, order);
    forall p | p in h.peers ensures PiecesSent(h'.peers[p].sent) == PiecesSent(h.peers[p].sent) {
      SendMore(h.peers[p].sent, [Send(Unchoke)]);
      SendMore(h.peers[p].sent, [Send(Choke)]);
    }
  }

  lemma InterestKeeps(t: Torrent, h: HubState, peer: Peer, interested: bool, h': HubState)
    requires HubInv(t, h) && OnInterest(h, peer, interested, h')
    ensures HubInv(t, h') && (Polite(h) ==> Polite(h'))
    ensures h' == h.(peers := h'.peers, chokes := h'.chokes) && NothingServed(h, h')
  {
    var h1 := h;
    if peer in h.peers {
      NoteKeeps(t, h, peer, h.peers[peer].(interested := interested));
      h1 := h.(peers := h.peers[peer := h.peers[peer].(interested := interested)]);
    }
    var order :| IsOrderOf(order, InterestedPeers(h1.peers)) && h' == Rechoke(h1, order);
    RechokeKeeps(t, h1, order);
  }

  lemma DropKeepsBound(h: HubState, peer: Peer, key: Key)
    requires FlightBound(h)
    ensures FlightBound(h.(pm := DropRequest(h.pm, peer, key)))
    ensures Polite(h) ==> Polite(h.(pm := DropRequest(h.pm, peer, key)))
  {
  }

  lemma BlockTakenKeeps(t: Torrent, h: HubState, peer: Peer, index: nat, begin: nat, data: seq<u8>)
    requires HubInv(t, h)
    ensures HubInv(t, h.(pm := OnBlock(t, h.pm, peer, index, begin, data).0))
    ensures Polite(h) ==> Polite(h.(pm := OnBlock(t, h.pm, peer, index, begin, data).0))
  {
    OnBlockInv(t, h.pm, peer, index, begin, data);
    DropKeepsBound(h, peer, (index, begin));
  }

  lemma BlockEventKeeps(t: Torrent, h: HubState, peer: Peer, index: nat, begin: nat, data: seq<u8>, h': HubState)
    requires HubInv(t, h) && OnBlockEvent(t, h, peer, index, begin, data, h')
    ensures HubInv(t, h') && (Polite(h) ==> Polite(h')) && NothingServed(h, h')
    ensures var (pm, ev) := OnBlock(t, h.pm, peer, index, begin, data);
            && DoneSet(h'.pm.states) == DoneSet(pm.states)
            && h' == (if ev.Ok? then AfterBlock(h, h'.pm, ev.value) else h.(pm := h'.pm)).(peers := h'.peers)
  {
    BlockTakenKeeps(t, h, peer, index, begin, data);
    var (pm, ev) := OnBlock(t, h.pm, peer, index, begin, data);
    if ev.Ok? {
      AcceptedKeeps(t, h, pm, ev.value, peer, h');
    } else {
      DismissKeeps(t, h.(pm := pm), peer);
    }
  }

  lemma AcceptedKeeps(t: Torrent, h: HubState, pm: State, ev: PieceEvent, peer: Peer, h': HubState)
    requires HubInv(t, h.(pm := pm)) && (Polite(h) ==> Polite(h.(pm := pm))) && Refilled(t, AfterBlock(h, pm, ev), peer, h')
    ensures HubInv(t, h') && (Polite(h) ==> Polite(h')) && NothingServed(h, h')
    ensures DoneSet(h'.pm.states) == DoneSet(pm.states) && h' == AfterBlock(h, h'.pm, ev).(peers := h'.peers)
  {
    AfterBlockKeeps(t, h, pm, ev);
    RefilledKeeps(t, AfterBlock(h, pm, ev), peer, h');
  }

  lemma AfterBlockKeeps(t: Torrent, h: HubState, pm: State, ev: PieceEvent)
    requires HubInv(t, h.(pm := pm))
    ensures var h' := AfterBlock(h, pm, ev);
            HubInv(t, h') && h'.pm == pm && h'.peers == h.peers && (Polite(h.(pm := pm)) ==> Polite(h'))
  {
  }

  lemma UploadKeeps(t: Torrent, h: HubState, peer: Peer, index: nat, begin: nat, data: seq<u8>)
    requires HubInv(t, h)
    ensures HubInv(t, OnUpload(h, peer, index, begin, data)) && (Polite(h) ==> Polite(OnUpload(h, peer, index, begin, data)))
  {
  }

  lemma DisconnectedKeeps(t: Torrent, h: HubState, peer: Peer)
    requires HubInv(t, h)
    ensures HubInv(t, OnDisconnected(h, peer)) && (Polite(h) ==> Polite(OnDisconnected(h, peer)))
    ensures peer !in OnDisconnected(h, peer).pm.peerPieces
  {
    PeerDisconnectedInv(t, h.pm, peer);
  }

  lemma RecheckKeeps(t: Torrent, h: HubState, index: nat, verified: bool)
    requires HubInv(t, h) && index < |t.pieces|
    ensures var h' := OnRecheck(h, index, verified);
            && HubInv(t, h') && (Polite(h) ==> Polite(h'))
            && DoneSet(h'.pm.states) == DoneSet(h.pm.states) + if verified then {index} else {}
  {
    MarkVerifiedInv(t, h.pm, index);
    DoneSetUpdate(h.pm.states, index, Done);
  }

  lemma RecheckDoneKeeps(t: Torrent, h: HubState, h': HubState)
    requires HubInv(t, h) && OnRecheckDone(t, h, h')
    ensures HubInv(t, h') && (Polite(h) ==> Polite(h')) && NothingServed(h, h')
    ensures h' == h.(pm := h'.pm, peers := h'.peers, phase := if IsComplete(t, h.pm) then Seed else Download)
    ensures DoneSet(h'.pm.states) == DoneSet(h.pm.states)
  {
    var complete := IsComplete(t, h.pm);
    var greeting := MyBitfield(h) + if complete then [] else [Send(Interested)];
    var h1 := h.(phase := if complete then Seed else Download);
    PhaseKeeps(t, h, h1.phase);
    var order :| IsOrderOf(order, h.peers.Keys) && RefilledAll(t, h1, order, greeting, h');
    RefilledAllKeeps(t, h1, order, greeting, h');
  }

  lemma PhaseKeeps(t: Torrent, h: HubState, phase: Phase)
    requires HubInv(t, h)
    ensures HubInv(t, h.(phase := phase)) && (Polite(h) ==> Polite(h.(phase := phase)))
  {
  }

  lemma ResumeKeeps(t: Torrent, h: HubState, h': HubState)
    requires HubInv(t, h) && OnResume(t, h, h')
    ensures HubInv(t, h') && (Polite(h) ==> Polite(h')) && NothingServed(h, h')
    ensures h' == h.(pm := h'.pm, peers := h'.peers, paused := false)
    ensures DoneSet(h'.pm.states) == DoneSet(h.pm.states)
  {
    var order :| IsOrderOf(order, h.peers.Keys) && RefilledAll(t, h.(paused := false), order, [], h');
    RefilledAllKeeps(t, h.(paused := false), order, [], h');
  }
}
