/** What the hub does with each event, as relations between its states.
    The order in which a hash map is walked and the blocks the picker chooses
    are free; everything else is determined. */
module HubSpec {
  import opened Wrappers
  import opened Bytes
  import opened FiniteSets
  import opened PieceSpec
  import opened PieceInvariant
  import opened ChokeSpec

  const PIPELINE: nat := 5
  const MAX_UNCHOKED: nat := 4
  const MAX_SERVE_BLOCK: nat := 131072

  datatype Message =
    | Request(index: nat, begin: nat, length: nat)
    | Cancel(index: nat, begin: nat, length: nat)
    | Piece(index: nat, begin: nat, block: seq<u8>)
    | Bitfield(pieces: set<nat>)
    | Interested
    | Choke
    | Unchoke

  datatype PeerCommand = Send(msg: Message) | Disconnect

  /** A connected peer; `sent` lists the commands given to its task so far. */
  datatype Link = Link(bitfield: set<nat>, unchoked: bool, interested: bool, ourChoke: bool, sent: seq<PeerCommand>)

  datatype DiskCommand =
    | WritePiece(index: nat, data: seq<u8>)
    | ReadBlock(peer: Peer, index: nat, begin: nat, length: nat)

  datatype Phase = Recheck | Download | Seed {
    function Rank(): nat {
      match this
      case Recheck => 0
      case Download => 1
      case Seed => 2
    }
  }

  datatype HubState = HubState(
    pm: State,
    peers: map<Peer, Link>,
    onDisk: set<nat>,
    pendingWrites: nat,
    phase: Phase,
    paused: bool,
    chokes: ChokeState,
    toDisk: seq<DiskCommand>)

  ghost function InitialHub(t: Torrent): HubState {
    HubState(Initial(t), map[], {}, 0, Recheck, false, ChokeState({}, 0), [])
  }

  function Say(peers: map<Peer, Link>, peer: Peer, cmd: PeerCommand): map<Peer, Link> {
    if peer in peers then peers[peer := peers[peer].(sent := peers[peer].sent + [cmd])] else peers
  }

  function SayAll(peers: map<Peer, Link>, to: set<Peer>, cmd: PeerCommand): map<Peer, Link> {
    map p | p in peers :: if p in to then peers[p].(sent := peers[p].sent + [cmd]) else peers[p]
  }

  // ---------- Filling a peer's pipeline ----------

  function RequestMsg(req: BlockRequest): PeerCommand {
    Send(Request(req.piece, req.begin, req.length))
  }

  function CancelMsg(req: BlockRequest): PeerCommand {
    Send(Cancel(req.piece, req.begin, req.length))
  }

  function SendRequest(t: Torrent, h: HubState, peer: Peer, req: BlockRequest): HubState
    requires Shape(t, h.pm) && req.piece < |h.pm.states|
  {
    var pm := ApplyPick(t, h.pm, peer, req);
    h.(pm := pm,
       peers := Say(SayAll(h.peers, CancelTargets(pm, req.Key(), peer), CancelMsg(req)), peer, RequestMsg(req)))
  }

  // The hub after it asked `peer` for these blocks in this order, if the
  // picker may choose them and there was a free slot for each.
  ghost function Requests(t: Torrent, h: HubState, peer: Peer, picks: seq<BlockRequest>): (r: Option<HubState>)
    requires Inv(t, h.pm) && peer in h.peers
    ensures r.Some? ==> Inv(t, r.value.pm) && peer in r.value.peers
  {
    if picks == [] then Some(h)
    else
      var last := |picks| - 1;
      var r := Requests(t, h, peer, picks[..last]);
      if r.Some? && |Own(r.value.pm, peer)| < PIPELINE
         && LegalPick(t, r.value.pm, peer, h.peers[peer].bitfield, picks[last]) then
        ApplyPickInv(t, r.value.pm, peer, h.peers[peer].bitfield, picks[last]);
        Some(SendRequest(t, r.value, peer, picks[last]))
      else None
  }

  ghost predicate CanRefill(h: HubState, peer: Peer) {
    !h.paused && peer in h.peers && h.peers[peer].unchoked
  }

  ghost predicate Refilled(t: Torrent, h: HubState, peer: Peer, h': HubState)
    requires Inv(t, h.pm)
  {
    if CanRefill(h, peer) then
      && (exists picks :: Requests(t, h, peer, picks) == Some(h'))
      && Inv(t, h'.pm)
      && (PIPELINE <= |Own(h'.pm, peer)| || NoPick(t, h'.pm, peer, h.peers[peer].bitfield))
    else h' == h
  }

  // Each peer in turn is told `greeting` and refilled.
  ghost predicate RefilledAll(t: Torrent, h: HubState, order: seq<Peer>, greeting: seq<PeerCommand>, h': HubState)
    requires Inv(t, h.pm)
  {
    if order == [] then h' == h
    else
      var last := |order| - 1;
      exists mid :: RefilledAll(t, h, order[..last], greeting, mid) && Inv(t, mid.pm)
                    && Refilled(t, Greet(mid, order[last], greeting), order[last], h')
  }

  function Greet(h: HubState, peer: Peer, greeting: seq<PeerCommand>): HubState {
    if peer in h.peers then h.(peers := h.peers[peer := h.peers[peer].(sent := h.peers[peer].sent + greeting)]) else h
  }

  // ---------- Events from peers ----------

  function MyBitfield(h: HubState): seq<PeerCommand> {
    if h.onDisk == {} then [] else [Send(Bitfield(h.onDisk))]
  }

  // Our bitfield goes out once: here, or when the recheck is done.
  function Connected(t: Torrent, h: HubState, peer: Peer, outbound: bool): HubState {
    var greeting := (if h.phase == Recheck then [] else MyBitfield(h))
                    + (if outbound && !IsComplete(t, h.pm) then [Send(Interested)] else []);
    h.(peers := h.peers[peer := Link({}, false, false, true, greeting)])
  }

  // A bitfield that does not fit the torrent ends the connection.
  ghost predicate OnBitfield(t: Torrent, h: HubState, peer: Peer, bf: Option<set<nat>>, h': HubState)
    requires Inv(t, h.pm) && (bf.Some? ==> bf.value <= Below(|t.pieces|))
  {
    match bf
    case None => h' == h.(peers := Say(h.peers, peer, Disconnect))
    case Some(bits) =>
      PeerBitfieldInv(t, h.pm, peer, bits);
      var peers := if peer in h.peers then h.peers[peer := h.peers[peer].(bitfield := bits)] else h.peers;
      Refilled(t, h.(pm := OnPeerBitfield(h.pm, peer, bits), peers := peers), peer, h')
  }

  function OnHave(t: Torrent, h: HubState, peer: Peer, index: nat): HubState {
    var peers := if peer in h.peers && index < |t.pieces|
                 then h.peers[peer := h.peers[peer].(bitfield := h.peers[peer].bitfield + {index})] else h.peers;
    h.(pm := OnPeerHave(h.pm, peer, index), peers := peers)
  }

  function OnChoke(h: HubState, peer: Peer): HubState {
    var peers := if peer in h.peers then h.peers[peer := h.peers[peer].(unchoked := false)] else h.peers;
    h.(pm := Release(h.pm, peer), peers := peers)
  }

  ghost predicate OnUnchoke(t: Torrent, h: HubState, peer: Peer, h': HubState)
    requires Inv(t, h.pm)
  {
    var peers := if peer in h.peers then h.peers[peer := h.peers[peer].(unchoked := true)] else h.peers;
    Refilled(t, h.(peers := peers), peer, h')
  }

  ghost predicate IsOrderOf<T>(order: seq<T>, all: set<T>) {
    SetOf(order) == all && Distinct(order)
  }

  ghost function InterestedPeers(peers: map<Peer, Link>): set<Peer> {
    set p | p in peers && peers[p].interested
  }

  function Rechoke(h: HubState, order: seq<Peer>): HubState {
    var (chokes, d) := Recompute(MAX_UNCHOKED, h.chokes, order);
    h.(chokes := chokes,
       peers := map p | p in h.peers ::
         var link := h.peers[p];
         if p in d.unchoke then link.(ourChoke := false, sent := link.sent + [Send(Unchoke)])
         else if p in d.choke then link.(ourChoke := true, sent := link.sent + [Send(Choke)])
         else link)
  }

  ghost predicate Rechoked(h: HubState, h': HubState) {
    exists order :: IsOrderOf(order, InterestedPeers(h.peers)) && h' == Rechoke(h, order)
  }

  ghost predicate OnInterest(h: HubState, peer: Peer, interested: bool, h': HubState) {
    var peers := if peer in h.peers then h.peers[peer := h.peers[peer].(interested := interested)] else h.peers;
    Rechoked(h.(peers := peers), h')
  }

  // Served only to an interested peer that we unchoked, and only from pieces
  // known to be on disk.
  function OnUploadRequest(t: Torrent, h: HubState, peer: Peer, index: nat, begin: nat, length: nat): HubState
    requires t.WF()
  {
    if h.paused || peer !in h.peers || !h.peers[peer].interested || h.peers[peer].ourChoke then h
    else if length == 0 || length > MAX_SERVE_BLOCK || |t.pieces| <= index || begin + length > t.PieceLen(index) then
      h.(peers := Say(h.peers, peer, Disconnect))
    else if index !in h.onDisk then h
    else h.(toDisk := h.toDisk + [ReadBlock(peer, index, begin, length)])
  }

  ghost predicate OnBlockEvent(t: Torrent, h: HubState, peer: Peer, index: nat, begin: nat, data: seq<u8>, h': HubState)
    requires Inv(t, h.pm)
  {
    OnBlockInv(t, h.pm, peer, index, begin, data);
    var (pm, ev) := OnBlock(t, h.pm, peer, index, begin, data);
    if ev.Err? then h' == h.(pm := pm, peers := Say(h.peers, peer, Disconnect))
    else Refilled(t, AfterBlock(h, pm, ev.value), peer, h')
  }

  // A finished piece goes to the disk writer.
  function AfterBlock(h: HubState, pm: State, ev: PieceEvent): HubState {
    match ev
    case PieceCompleted(i, whole) =>
      h.(pm := pm, pendingWrites := h.pendingWrites + 1, toDisk := h.toDisk + [WritePiece(i, whole)])
    case _ => h.(pm := pm)
  }

  function OnDisconnected(h: HubState, peer: Peer): HubState {
    h.(pm := OnPeerDisconnected(h.pm, peer), peers := h.peers - {peer})
  }

  // ---------- Events from the disk and from the recheck ----------

  function OnWritten(h: HubState, index: nat): HubState
    requires 0 < h.pendingWrites
  {
    h.(pendingWrites := h.pendingWrites - 1, onDisk := h.onDisk + {index})
  }

  // The download is complete: every piece checked, every write acknowledged.
  function AllWritten(t: Torrent, h: HubState): bool {
    IsComplete(t, h.pm) && h.pendingWrites == 0
  }

  function OnUpload(h: HubState, peer: Peer, index: nat, begin: nat, data: seq<u8>): HubState {
    h.(peers := Say(h.peers, peer, Send(Piece(index, begin, data))))
  }

  function OnRecheck(h: HubState, index: nat, verified: bool): HubState {
    if verified then h.(pm := MarkVerified(h.pm, index), onDisk := h.onDisk + {index}) else h
  }

  ghost predicate OnRecheckDone(t: Torrent, h: HubState, h': HubState)
    requires Inv(t, h.pm)
  {
    var complete := IsComplete(t, h.pm);
    var greeting := MyBitfield(h) + if complete then [] else [Send(Interested)];
    exists order :: IsOrderOf(order, h.peers.Keys)
                    && RefilledAll(t, h.(phase := if complete then Seed else Download), order, greeting, h')
  }

  // ---------- Commands ----------

  ghost predicate OnResume(t: Torrent, h: HubState, h': HubState)
    requires Inv(t, h.pm)
  {
    exists order :: IsOrderOf(order, h.peers.Keys) && RefilledAll(t, h.(paused := false), order, [], h')
  }
}
